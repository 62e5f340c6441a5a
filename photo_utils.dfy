/**
 * `photo_utils`: turning the photo file names of a place into URLs. A name that is already
 * an http(s) URL is used as it is, a local file is served under `/static/photos/` with its
 * name percent-encoded, and anything else yields nothing; `get_place_photos` collects up to
 * three such URLs, filling gaps with placeholder images when asked to.
 *
 * Whether a file exists in the photos directory is a parameter `fileExists` (a predicate on the
 * stripped file name); the directory itself is not modelled.
 */
module PhotoUtils {
  import opened Results
  import opened Text

  /** A cell of a pandas row: the column is missing, the value is NaN, or it holds text. */
  datatype Cell = Absent | NaN | Text(s: string)

  /** The cells `get_place_photos` reads from a place row. */
  datatype PhotoRow = PhotoRow(photo1: Cell, photo2: Cell, photo3: Cell, keyword: Cell)

  const StaticPhotosPrefix: string := "/static/photos/"

  /** `check_photo_exists`: false for an empty name, otherwise whether the stripped name exists. */
  predicate CheckPhotoExists(filename: string, fileExists: string -> bool)
  {
    filename != "" && fileExists(Strip(filename))
  }

  predicate IsHttpUrl(s: string)
  {
    StartsWith(s, "http://") || StartsWith(s, "https://")
  }

  /**
   * A photo URL, kept as the pieces it is formatted from: a URL the data already holds, a
   * local file served under `/static/photos/` (its stripped name, percent-encoded when
   * formatted), or a placeholder image with the background colour of its slot, captioned
   * with the place's keyword.
   */
  datatype PhotoUrl = Given(url: string) | Served(name: string) | PlaceholderImage(color: Color, keyword: Cell)

  /** The placeholder backgrounds of the first, second and third photo slot. */
  datatype Color = Slot1 | Slot2 | Slot3

  function Hex(c: Color): string
  {
    match c
    case Slot1 => "667eea"
    case Slot2 => "764ba2"
    case Slot3 => "5b86e5"
  }

  /** The colour of photo slot `i`. */
  function SlotColor(i: nat): Color
    requires i < 3
  {
    if i == 0 then Slot1 else if i == 1 then Slot2 else Slot3
  }

  /** `str(place_row.get('keyword', 'Place'))`: a missing column reads "Place", a NaN reads "nan". */
  function KeywordText(keyword: Cell): string
  {
    match keyword
    case Absent => "Place"
    case NaN => "nan"
    case Text(s) => s
  }

  /** The URL text each form is formatted as. */
  function Render(u: PhotoUrl): string
  {
    match u
    case Given(url) => url
    case Served(name) => StaticPhotosPrefix + Quote(name)
    case PlaceholderImage(color, keyword) =>
      "https://via.placeholder.com/400x300/" + Hex(color) + "/ffffff?text=" + Quote(KeywordText(keyword))
  }

  /** Served files keep the static prefix and placeholders are https URLs. */
  lemma RenderFacts(u: PhotoUrl)
    ensures u.Served? ==> StartsWith(Render(u), StaticPhotosPrefix) && Render(u)[|StaticPhotosPrefix|..] == Quote(u.name)
    ensures u.PlaceholderImage? ==> StartsWith(Render(u), "https://")
  {
    StartsWithIsPrefix(Render(u), StaticPhotosPrefix);
    StartsWithIsPrefix(Render(u), "https://");
    if u.PlaceholderImage? {
      assert Render(u)[..8] == "https://";
    }
  }

  /** `get_photo_url_from_filename` */
  function PhotoUrlFromFilename(filename: Cell, fileExists: string -> bool): (url: Option<PhotoUrl>)
    ensures url.Some? ==> (url.value.Given? && IsHttpUrl(url.value.url)) || url.value.Served?
  {
    if !filename.Text? || filename.s == "" || Strip(filename.s) == "" then None
    else
      var name := Strip(filename.s);
      if IsHttpUrl(name) then Some(Given(name))
      else if CheckPhotoExists(name, fileExists) then Some(Served(name))
      else None
  }

  /**
   * A missing, NaN or blank cell gives no URL. Otherwise a name given as an http(s) URL
   * comes back stripped and otherwise unchanged, and a local name comes back (stripped, to be
   * served under the static prefix) exactly when the stripped name exists: the existence
   * check strips again, to no effect.
   */
  lemma PhotoUrlFacts(filename: Cell, fileExists: string -> bool)
    ensures !filename.Text? || IsBlank(filename.s) ==> PhotoUrlFromFilename(filename, fileExists) == None
    ensures filename.Text? && !IsBlank(filename.s) && IsHttpUrl(Strip(filename.s)) ==>
      PhotoUrlFromFilename(filename, fileExists) == Some(Given(Strip(filename.s)))
    ensures filename.Text? && !IsBlank(filename.s) && !IsHttpUrl(Strip(filename.s)) ==>
      && (PhotoUrlFromFilename(filename, fileExists).Some? <==> fileExists(Strip(filename.s)))
      && (fileExists(Strip(filename.s)) ==> PhotoUrlFromFilename(filename, fileExists) == Some(Served(Strip(filename.s))))
  {
    if filename.Text? {
      StripIdempotent(filename.s);
    }
  }

  /** The cell of photo column `i` (`photo_1`, `photo_2`, `photo_3`). */
  function Column(row: PhotoRow, i: nat): Cell
    requires i < 3
  {
    if i == 0 then row.photo1 else if i == 1 then row.photo2 else row.photo3
  }

  /** How many photo columns are looked at: `max_photos`, between 0 and 3. */
  function Examined(maxPhotos: int): (n: nat)
    ensures n <= 3 && (maxPhotos >= 0 ==> n <= maxPhotos)
  {
    if maxPhotos <= 0 then 0 else if maxPhotos < 3 then maxPhotos else 3
  }

  /** What column `i` adds: its URL, else a placeholder when allowed, else nothing; an empty or NaN cell adds nothing. */
  function ColumnEntry(row: PhotoRow, i: nat, fileExists: string -> bool, usePlaceholders: bool): (e: seq<PhotoUrl>)
    requires i < 3
    ensures |e| <= 1
    ensures !usePlaceholders && e != [] ==> Some(e[0]) == PhotoUrlFromFilename(Column(row, i), fileExists)
  {
    var cell := Column(row, i);
    if !cell.Text? || cell.s == "" then []
    else
      var url := PhotoUrlFromFilename(cell, fileExists);
      if url.Some? then [url.value]
      else if usePlaceholders then [PlaceholderImage(SlotColor(i), row.keyword)]
      else []
  }

  /** The entry of column `i`, case by case, and appending it when it is empty changes nothing. */
  lemma ColumnEntryCases(row: PhotoRow, i: nat, fileExists: string -> bool, usePlaceholders: bool)
    requires i < 3
    ensures var e := ColumnEntry(row, i, fileExists, usePlaceholders);
      var cell := Column(row, i);
      && (!cell.Text? || cell.s == "" ==> e == [])
      && (cell.Text? && cell.s != "" && PhotoUrlFromFilename(cell, fileExists).Some? ==> e == [PhotoUrlFromFilename(cell, fileExists).value])
      && (cell.Text? && cell.s != "" && PhotoUrlFromFilename(cell, fileExists).None? ==>
            e == if usePlaceholders then [PlaceholderImage(SlotColor(i), row.keyword)] else [])
    ensures forall s: seq<PhotoUrl> :: ColumnEntry(row, i, fileExists, usePlaceholders) == [] ==> s + ColumnEntry(row, i, fileExists, usePlaceholders) == s
  {
  }

  /** The entries of the first `n` columns, in column order. */
  function Entries(row: PhotoRow, n: nat, fileExists: string -> bool, usePlaceholders: bool): (r: seq<PhotoUrl>)
    requires n <= 3
    ensures |r| <= n
  {
    if n == 0 then []
    else Entries(row, n - 1, fileExists, usePlaceholders) + ColumnEntry(row, n - 1, fileExists, usePlaceholders)
  }

  /** Column `i` contributes its entry after those of the columns before it. */
  lemma EntriesStep(row: PhotoRow, i: nat, fileExists: string -> bool, usePlaceholders: bool)
    requires i < 3
    ensures Entries(row, i + 1, fileExists, usePlaceholders) == Entries(row, i, fileExists, usePlaceholders) + ColumnEntry(row, i, fileExists, usePlaceholders)
  {
  }

  /** The list `get_place_photos` returns. */
  function PlacePhotos(row: PhotoRow, fileExists: string -> bool, usePlaceholders: bool, maxPhotos: int): (r: seq<PhotoUrl>)
    ensures |r| <= 3
    ensures usePlaceholders ==> r != []
  {
    var e := Entries(row, Examined(maxPhotos), fileExists, usePlaceholders);
    if e == [] && usePlaceholders then [PlaceholderImage(Slot1, row.keyword)] else e
  }

  /** `get_place_photos`: one pass over the three photo columns, then the fallback placeholder. */
  method GetPlacePhotos(row: PhotoRow, fileExists: string -> bool, usePlaceholders: bool := true, maxPhotos: int := 3)
    returns (photos: seq<PhotoUrl>)
    ensures photos == PlacePhotos(row, fileExists, usePlaceholders, maxPhotos)
  {
    photos := [];
    var i := 0;
    while i < 3 && i < maxPhotos
      invariant 0 <= i <= Examined(maxPhotos)
      invariant photos == Entries(row, i, fileExists, usePlaceholders)
    {
      EntriesStep(row, i, fileExists, usePlaceholders);
      ColumnEntryCases(row, i, fileExists, usePlaceholders);
      var cell := Column(row, i);
      // a missing column, an empty name and NaN are all skipped
      if cell.Text? && cell.s != "" {
        var url := PhotoUrlFromFilename(cell, fileExists);
        if url.Some? {
          photos := photos + [url.value];
        } else if usePlaceholders {
          photos := photos + [PlaceholderImage(SlotColor(i), row.keyword)];
        }
      }
      i := i + 1;
    }
    if |photos| == 0 && usePlaceholders {
      photos := photos + [PlaceholderImage(Slot1, row.keyword)];
    }
  }

  /**
   * At most one entry per examined column (plus the one fallback placeholder); with
   * placeholders the list is never empty; without them every entry is the URL of one of
   * the examined columns.
   */
  lemma PlacePhotosFacts(row: PhotoRow, fileExists: string -> bool, usePlaceholders: bool, maxPhotos: int)
    ensures var photos := PlacePhotos(row, fileExists, usePlaceholders, maxPhotos);
      && |photos| <= (if usePlaceholders && Examined(maxPhotos) == 0 then 1 else Examined(maxPhotos))
      && (usePlaceholders ==> |photos| >= 1)
      && (!usePlaceholders ==> forall k :: 0 <= k < |photos| ==>
            exists c :: 0 <= c < Examined(maxPhotos) && Some(photos[k]) == PhotoUrlFromFilename(Column(row, c), fileExists))
  {
    if !usePlaceholders {
      EntriesAreUrls(row, Examined(maxPhotos), fileExists);
      assert PlacePhotos(row, fileExists, usePlaceholders, maxPhotos) == Entries(row, Examined(maxPhotos), fileExists, false);
    }
  }

  lemma EntriesAreUrls(row: PhotoRow, n: nat, fileExists: string -> bool)
    requires n <= 3
    ensures var e := Entries(row, n, fileExists, false);
      forall k :: 0 <= k < |e| ==> exists c :: 0 <= c < n && Some(e[k]) == PhotoUrlFromFilename(Column(row, c), fileExists)
  {
    var e := Entries(row, n, fileExists, false);
    forall k | 0 <= k < |e|
      ensures exists c :: 0 <= c < n && Some(e[k]) == PhotoUrlFromFilename(Column(row, c), fileExists)
    {
      EntryIsUrl(row, n, fileExists, k);
    }
  }

  /** Entry `k` of the first `n` columns, without placeholders, is the URL of one of them. */
  lemma {:induction false} EntryIsUrl(row: PhotoRow, n: nat, fileExists: string -> bool, k: nat)
    requires n <= 3 && k < |Entries(row, n, fileExists, false)|
    ensures exists c :: 0 <= c < n && Some(Entries(row, n, fileExists, false)[k]) == PhotoUrlFromFilename(Column(row, c), fileExists)
  {
    var prev, last := Entries(row, n - 1, fileExists, false), ColumnEntry(row, n - 1, fileExists, false);
    var e := Entries(row, n, fileExists, false);
    assert e == prev + last;
    if k < |prev| {
      EntryIsUrl(row, n - 1, fileExists, k);
      var c :| 0 <= c < n - 1 && Some(prev[k]) == PhotoUrlFromFilename(Column(row, c), fileExists);
      assert e[k] == prev[k];
    } else {
      assert e[k] == last[0];
      assert Some(e[k]) == PhotoUrlFromFilename(Column(row, n - 1), fileExists);
    }
  }
}
