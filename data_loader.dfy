/**
 * `DataLoader`: the in-memory places table. Loading reads the CSV and cleans it: missing
 * text becomes the empty string, numbers that are missing or do not parse become 0, and two
 * flags record whether a place has a phone number and a website. The queries are a name
 * search (the lower-cased query is a regular expression searched for in the lower-cased
 * names), a keyword filter and a lookup by `place_id`; each raises while nothing is loaded.
 * A module-level registry holds the one loader the service uses.
 *
 * Reading the file is not modelled: `Load` receives the rows `pd.read_csv` would produce.
 */
module DataLoading {
  import opened Results
  import opened Seqs
  import opened Text

  /** A numeric cell as `pd.to_numeric(errors='coerce')` sees it: empty, a number, or text that does not parse. */
  datatype NumCell = NumMissing | Number(v: real) | NotNumeric

  /**
   * One CSV row before cleaning; `None` is an empty (NaN) text cell. The id, name and
   * address, which cleaning never fills, are taken to be present in every row.
   */
  datatype RawRow = RawRow(
    placeId: string, name: string, address: string,
    keyword: Option<string>, phone: Option<string>, website: Option<string>, reviewSummary: Option<string>,
    photo1: Option<string>, photo2: Option<string>, photo3: Option<string>,
    lat: NumCell, lng: NumCell, rating: NumCell, userRatingsTotal: NumCell,
    tourismScore: NumCell, popularityScore: NumCell, estimatedTransportCarbonKg: NumCell,
    activityCarbonScore: NumCell, visitorCarbonFactor: NumCell)

  /** One row of the cleaned table. */
  datatype Place = Place(
    placeId: string, name: string, address: string,
    keyword: string, phone: string, website: string, reviewSummary: string,
    photo1: string, photo2: string, photo3: string,
    lat: real, lng: real, rating: real, userRatingsTotal: real,
    tourismScore: real, popularityScore: real, estimatedTransportCarbonKg: real,
    activityCarbonScore: real, visitorCarbonFactor: real,
    hasPhone: bool, hasWebsite: bool)

  /** `fillna('')` */
  function FillText(c: Option<string>): (s: string)
    ensures c.Some? ==> s == c.value
    ensures c.None? ==> s == ""
  {
    if c.Some? then c.value else ""
  }

  /** `pd.to_numeric(errors='coerce').fillna(0)` */
  function ToNumber(c: NumCell): (x: real)
    ensures c.Number? ==> x == c.v
    ensures !c.Number? ==> x == 0.0
  {
    if c.Number? then c.v else 0.0
  }

  /** `_clean_data` applied to one row. */
  function CleanRow(raw: RawRow): (p: Place)
    ensures p.hasPhone <==> !IsBlank(p.phone)
    ensures p.hasWebsite <==> !IsBlank(p.website)
  {
    var phone := FillText(raw.phone);
    var website := FillText(raw.website);
    Place(raw.placeId, raw.name, raw.address,
      FillText(raw.keyword), phone, website, FillText(raw.reviewSummary),
      FillText(raw.photo1), FillText(raw.photo2), FillText(raw.photo3),
      ToNumber(raw.lat), ToNumber(raw.lng), ToNumber(raw.rating), ToNumber(raw.userRatingsTotal),
      ToNumber(raw.tourismScore), ToNumber(raw.popularityScore), ToNumber(raw.estimatedTransportCarbonKg),
      ToNumber(raw.activityCarbonScore), ToNumber(raw.visitorCarbonFactor),
      Strip(phone) != "", Strip(website) != "")
  }

  /** `_clean_data` on the whole table: row by row, order and length kept. */
  function CleanData(rows: seq<RawRow>): (table: seq<Place>)
    ensures |table| == |rows|
    ensures forall k :: 0 <= k < |rows| ==> table[k] == CleanRow(rows[k])
  {
    seq(|rows|, k requires 0 <= k < |rows| => CleanRow(rows[k]))
  }

  /** A cleaned row written back as a CSV row with every cell present. */
  function ToRaw(p: Place): (raw: RawRow)
    ensures raw.keyword.Some? && raw.phone.Some? && raw.lat.Number? && raw.visitorCarbonFactor.Number?
  {
    RawRow(p.placeId, p.name, p.address,
      Some(p.keyword), Some(p.phone), Some(p.website), Some(p.reviewSummary),
      Some(p.photo1), Some(p.photo2), Some(p.photo3),
      Number(p.lat), Number(p.lng), Number(p.rating), Number(p.userRatingsTotal),
      Number(p.tourismScore), Number(p.popularityScore), Number(p.estimatedTransportCarbonKg),
      Number(p.activityCarbonScore), Number(p.visitorCarbonFactor))
  }

  /** Cleaning is idempotent: a cleaned row saved and cleaned again comes back unchanged. */
  lemma CleanRowIdempotent(raw: RawRow)
    ensures CleanRow(ToRaw(CleanRow(raw))) == CleanRow(raw)
  {
    var p := CleanRow(raw);
    var q := CleanRow(ToRaw(p));
    assert q.phone == p.phone && q.website == p.website;
  }

  /** A row with no empty text cell and no unparsable number keeps every value it had. */
  predicate Complete(raw: RawRow)
  {
    && raw.keyword.Some? && raw.phone.Some? && raw.website.Some? && raw.reviewSummary.Some?
    && raw.photo1.Some? && raw.photo2.Some? && raw.photo3.Some?
    && raw.lat.Number? && raw.lng.Number? && raw.rating.Number? && raw.userRatingsTotal.Number?
    && raw.tourismScore.Number? && raw.popularityScore.Number? && raw.estimatedTransportCarbonKg.Number?
    && raw.activityCarbonScore.Number? && raw.visitorCarbonFactor.Number?
  }

  /** Cleaning changes exactly the incomplete rows: a row comes back as read iff it is complete. */
  lemma CleanRowKeepsComplete(raw: RawRow)
    ensures ToRaw(CleanRow(raw)) == raw <==> Complete(raw)
  {
    if Complete(raw) {
      var back := ToRaw(CleanRow(raw));
      assert back.keyword == raw.keyword && back.phone == raw.phone && back.lat == raw.lat;
    }
  }

  /** The pattern `search_by_name` hands to `str.contains`: the query lower-cased, then stripped. */
  function NamePattern(query: string): string
  {
    Strip(Lower(query))
  }

  /** The characters that are special in a pattern of Python's `re` module. */
  predicate IsRegexMeta(c: char)
  {
    c in ".^$*+?{}[]\\|()"
  }

  /** A pattern without metacharacters: every character stands for itself. */
  predicate IsPlainPattern(pattern: string)
  {
    forall k :: 0 <= k < |pattern| ==> !IsRegexMeta(pattern[k])
  }

  /** The search a plain pattern compiles to: does the text contain the pattern? */
  function LiteralSearch(pattern: string): Result<string -> bool, string>
  {
    Success((text: string) => Contains(text, pattern))
  }

  /**
   * `re.compile(pattern)` followed by `search`, as `str.contains` runs it by default: compiling
   * either raises `re.error` with a message or gives a test of whether the pattern is found in
   * a text. The regular-expression language is a parameter; the model fixes only that a plain
   * pattern is searched for literally.
   */
  type RegexSearch = re: string -> Result<string -> bool, string>
    | forall pattern, text :: IsPlainPattern(pattern) ==> re(pattern).Success? && (re(pattern).value(text) <==> Contains(text, pattern))
    witness LiteralSearch

  /** The rows whose lower-cased name `found` accepts, in table order (every row is taken to have a name, so `na=False` is not modelled). */
  function NameMatches(table: seq<Place>, found: string -> bool): (r: seq<Place>)
    ensures forall k :: 0 <= k < |r| ==> found(Lower(r[k].name))
  {
    Filter(table, (p: Place) => found(Lower(p.name)))
  }

  /**
   * `search_by_name` on a loaded table: `re.error` when the pattern does not compile,
   * otherwise the first `limit` rows whose lower-cased name the pattern is found in.
   */
  function SearchResults(re: RegexSearch, table: seq<Place>, query: string, limit: int): (r: Result<seq<Place>, string>)
    ensures r.Failure? <==> re(NamePattern(query)).Failure?
    ensures r.Failure? ==> r.error == re(NamePattern(query)).error
    ensures r.Success? ==> limit >= 0 ==> |r.value| <= limit
    ensures r.Success? ==> forall k :: 0 <= k < |r.value| ==> re(NamePattern(query)).value(Lower(r.value[k].name))
  {
    var compiled := re(NamePattern(query));
    if compiled.Failure? then Failure(compiled.error)
    else Success(Head(NameMatches(table, compiled.value), limit))
  }

  /**
   * A compiled pattern returns the leading matches: every match when there are at most
   * `limit` of them, otherwise the first `limit`.
   */
  lemma SearchResultsFacts(re: RegexSearch, table: seq<Place>, query: string, limit: int)
    ensures var r := SearchResults(re, table, query, limit);
      r.Success? ==>
        var matches := NameMatches(table, re(NamePattern(query)).value);
        && r.value == matches[..|r.value|]
        && (limit >= |matches| ==> r.value == matches)
        && (0 <= limit < |matches| ==> |r.value| == limit)
  {
  }

  /** A filter whose two predicates agree on every element gives the same rows. */
  lemma {:induction false} FilterAgrees(table: seq<Place>, f: Place -> bool, g: Place -> bool)
    requires forall k :: 0 <= k < |table| ==> f(table[k]) == g(table[k])
    ensures Filter(table, f) == Filter(table, g)
  {
    if table != [] {
      var init := table[..|table| - 1];
      assert forall k :: 0 <= k < |init| ==> init[k] == table[k];
      FilterAgrees(init, f, g);
    }
  }

  /** The rows whose lower-cased name contains `pattern` as a substring. */
  function LiteralMatches(table: seq<Place>, pattern: string): (r: seq<Place>)
    ensures forall k :: 0 <= k < |r| ==> Contains(Lower(r[k].name), pattern)
  {
    Filter(table, (p: Place) => Contains(Lower(p.name), pattern))
  }

  /**
   * A query whose pattern has no metacharacter never fails and returns the first `limit`
   * rows whose lower-cased name contains the lower-cased, stripped query as a substring; a
   * blank query is such a query, and it returns the head of the table.
   */
  lemma PlainSearchIsLiteral(re: RegexSearch, table: seq<Place>, query: string, limit: int)
    requires IsPlainPattern(NamePattern(query))
    ensures SearchResults(re, table, query, limit) == Success(Head(LiteralMatches(table, NamePattern(query)), limit))
    ensures IsBlank(query) ==> SearchResults(re, table, query, limit) == Success(Head(table, limit))
  {
    var pattern := NamePattern(query);
    var found := re(pattern).value;
    forall k | 0 <= k < |table| ensures found(Lower(table[k].name)) == Contains(Lower(table[k].name), pattern) {
    }
    FilterAgrees(table, (p: Place) => found(Lower(p.name)), (p: Place) => Contains(Lower(p.name), pattern));
    if IsBlank(query) {
      var lq := Lower(query);
      assert IsBlank(lq) by {
        forall k | 0 <= k < |lq| ensures IsSpace(lq[k]) {
          assert IsSpace(query[k]);
        }
      }
      assert pattern == "";
      forall k | 0 <= k < |table| ensures Contains(Lower(table[k].name), pattern) {
        assert InfixAt(Lower(table[k].name), "", 0);
      }
      FilterAll(table, (p: Place) => Contains(Lower(p.name), pattern));
    }
  }

  /** The rows whose category is one of `keywords` (`isin`). */
  function KeywordMatches(table: seq<Place>, keywords: seq<string>): (r: seq<Place>)
    ensures forall k :: 0 <= k < |r| ==> r[k].keyword in keywords
  {
    Filter(table, (p: Place) => p.keyword in keywords)
  }

  /** A row is kept exactly when it is in the table and its keyword is listed. */
  lemma KeywordMatchesMembership(table: seq<Place>, keywords: seq<string>, p: Place)
    ensures p in KeywordMatches(table, keywords) <==> p in table && p.keyword in keywords
  {
    FilterMembership(table, (q: Place) => q.keyword in keywords, p);
  }

  /** The first row carrying `id`, as `df[df['place_id'] == id].iloc[0]` selects it. */
  function FirstWithId(table: seq<Place>, id: string): (r: Option<Place>)
    ensures r.None? <==> forall k :: 0 <= k < |table| ==> table[k].placeId != id
    ensures r.Some? ==> r.value.placeId == id && exists k :: (0 <= k < |table| && table[k] == r.value
      && forall j :: 0 <= j < k ==> table[j].placeId != id)
  {
    if table == [] then None
    else if table[0].placeId == id then Some(table[0])
    else
      var rest := FirstWithId(table[1..], id);
      assert forall k :: 1 <= k < |table| ==> table[k] == table[1..][k - 1];
      rest
  }

  const NotLoaded: string := "Data not loaded"

  /** The loader object: the CSV path and the table, absent until `load` runs. */
  class DataLoader {
    var csvPath: string
    var df: Option<seq<Place>>

    constructor(csvPath: string)
      ensures this.csvPath == csvPath && df == None
    {
      this.csvPath := csvPath;
      df := None;
    }

    /** `load`: the rows read from `csvPath` are cleaned and become the table. */
    method Load(csv: seq<RawRow>) returns (table: seq<Place>)
      modifies this
      ensures table == CleanData(csv)
      ensures df == Some(table) && csvPath == old(csvPath)
    {
      df := Some(CleanData(csv));
      table := df.value;
    }

    /** `get_data`: the table, or an error before loading. */
    method GetData() returns (r: Result<seq<Place>, string>)
      ensures r.Failure? <==> df.None?
      ensures r.Failure? ==> r.error == NotLoaded + ". Call load() first."
      ensures r.Success? ==> r.value == df.value
    {
      if df.None? {
        return Failure(NotLoaded + ". Call load() first.");
      }
      return Success(df.value);
    }

    /** `search_by_name`, raising before loading and when the query is not a valid pattern. */
    method SearchByName(re: RegexSearch, query: string, limit: int := 10) returns (r: Result<seq<Place>, string>)
      ensures df.None? ==> r == Failure(NotLoaded)
      ensures df.Some? ==> r == SearchResults(re, df.value, query, limit)
    {
      if df.None? {
        return Failure(NotLoaded);
      }
      var queryLower := Strip(Lower(query));
      var compiled := re(queryLower);
      if compiled.Failure? {
        return Failure(compiled.error);
      }
      var mask := compiled.value;
      return Success(Head(Filter(df.value, (p: Place) => mask(Lower(p.name))), limit));
    }

    /** `filter_by_keywords`: an empty list keeps the whole table. */
    method FilterByKeywords(keywords: seq<string>) returns (r: Result<seq<Place>, string>)
      ensures r.Failure? <==> df.None?
      ensures r.Success? && keywords == [] ==> r.value == df.value
      ensures r.Success? && keywords != [] ==> r.value == KeywordMatches(df.value, keywords)
    {
      if df.None? {
        return Failure(NotLoaded);
      }
      if keywords == [] {
        return Success(df.value);
      }
      return Success(KeywordMatches(df.value, keywords));
    }

    /** `get_place_by_id`: the first row with that id, `None` when there is none. */
    method GetPlaceById(placeId: string) returns (r: Result<Option<Place>, string>)
      ensures r.Failure? <==> df.None?
      ensures r.Success? ==> r.value == FirstWithId(df.value, placeId)
    {
      if df.None? {
        return Failure(NotLoaded);
      }
      return Success(FirstWithId(df.value, placeId));
    }
  }

  /** The module-level `_data_loader` global. */
  class Registry {
    var loader: Option<DataLoader>

    constructor()
      ensures loader == None
    {
      loader := None;
    }

    /** `init_data_loader`: a new loader for `csvPath`, loaded with `csv`, becomes the global one. */
    method InitDataLoader(csvPath: string, csv: seq<RawRow>) returns (l: DataLoader)
      modifies this
      ensures fresh(l) && loader == Some(l)
      ensures l.csvPath == csvPath && l.df == Some(CleanData(csv))
    {
      l := new DataLoader(csvPath);
      var _ := l.Load(csv);
      loader := Some(l);
    }

    /** `get_data_loader`: the global loader, or an error before initialisation. */
    method GetDataLoader() returns (r: Result<DataLoader, string>)
      ensures r.Failure? <==> loader.None?
      ensures r.Success? ==> r.value == loader.value
    {
      if loader.None? {
        return Failure("DataLoader not initialized. Call init_data_loader() first.");
      }
      return Success(loader.value);
    }
  }
}
