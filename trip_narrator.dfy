/**
 * `TripNarrator`: the human-readable parts of a trip response. The narrative summary
 * opens with the theme and a tally of place categories, describes each stop and the leg
 * that reaches it, then gives the totals, an eco rating and a recommendation; the route
 * directions give a compass heading for each leg; the compact summary is one line.
 *
 * The texts are kept as the values they are formatted from (a line, a heading, a
 * category tally); their Thai wording, emoji and number formatting are not modelled.
 *
 * Each leg line shows the leg's carbon, read from the stop under one of two keys. The source
 * reads `carbon_footprint_kg`, a key the planner's stops never carry, so every leg shows 0
 * (`FootprintKey`, see `AsWrittenLegCarbonsAreZero`); reading `carbon_kg` (`CarbonKgKey`)
 * shows each stop's own carbon, and the shown legs add up to the trip total less the first
 * stop's carbon (`LegCarbonsAddUp`).
 */
module TripNarrator {
  import opened Numeric
  import opened Results
  import opened Seqs
  import opened RouteStops

  // ----- compass headings

  datatype Direction = North | South | East | West | NorthEast | NorthWest | SouthEast | SouthWest

  predicate IsDiagonal(d: Direction)
  {
    d.NorthEast? || d.NorthWest? || d.SouthEast? || d.SouthWest?
  }

  predicate Northward(d: Direction)
  {
    d.North? || d.NorthEast? || d.NorthWest?
  }

  predicate Eastward(d: Direction)
  {
    d.East? || d.NorthEast? || d.SouthEast?
  }

  /**
   * `_calculate_direction`: a diagonal heading when both offsets exceed 0.01 degrees,
   * otherwise the axis of the larger offset (longitude on a tie). A move of zero reads west.
   */
  function CalculateDirection(lat1: real, lng1: real, lat2: real, lng2: real): (d: Direction)
    ensures IsDiagonal(d) <==> Abs(lat2 - lat1) > 0.01 && Abs(lng2 - lng1) > 0.01
    ensures IsDiagonal(d) ==> (Northward(d) <==> lat2 > lat1) && (Eastward(d) <==> lng2 > lng1)
    ensures !IsDiagonal(d) ==> ((d.North? || d.South?) <==> Abs(lat2 - lat1) > Abs(lng2 - lng1))
    ensures d.North? ==> lat2 > lat1
    ensures d.South? ==> lat2 < lat1
    ensures d.East? ==> lng2 > lng1
    ensures d.West? ==> lng2 <= lng1
  {
    var dlat := lat2 - lat1;
    var dlng := lng2 - lng1;
    var primary := if Abs(dlat) > Abs(dlng) then (if dlat > 0.0 then North else South)
      else if dlng > 0.0 then East else West;
    if Abs(dlat) > 0.01 && Abs(dlng) > 0.01 then
      if dlat > 0.0 && dlng > 0.0 then NorthEast
      else if dlat > 0.0 && dlng < 0.0 then NorthWest
      else if dlat < 0.0 && dlng > 0.0 then SouthEast
      else SouthWest
    else primary
  }

  function Opposite(d: Direction): Direction
  {
    match d
    case North => South
    case South => North
    case East => West
    case West => East
    case NorthEast => SouthWest
    case NorthWest => SouthEast
    case SouthEast => NorthWest
    case SouthWest => NorthEast
  }

  /**
   * Travelling a leg backwards gives the opposite heading, except for a leg that does not
   * move at all, which reads west both ways.
   */
  lemma ReversedLegIsOpposite(lat1: real, lng1: real, lat2: real, lng2: real)
    ensures (lat1, lng1) != (lat2, lng2) ==>
      CalculateDirection(lat2, lng2, lat1, lng1) == Opposite(CalculateDirection(lat1, lng1, lat2, lng2))
    ensures CalculateDirection(lat1, lng1, lat1, lng1) == West
  {
  }

  // ----- eco rating and recommendation

  datatype EcoRating = ThreeStars | TwoStars | OneStar | Smoke

  /** `_get_eco_rating`: three stars from 8, two from 6, one from 4, smoke below. */
  function GetEcoRating(ecoScore: real): (r: EcoRating)
    ensures r.ThreeStars? <==> ecoScore >= 8.0
    ensures r.TwoStars? <==> 6.0 <= ecoScore < 8.0
    ensures r.OneStar? <==> 4.0 <= ecoScore < 6.0
    ensures r.Smoke? <==> ecoScore < 4.0
  {
    if ecoScore >= 8.0 then ThreeStars
    else if ecoScore >= 6.0 then TwoStars
    else if ecoScore >= 4.0 then OneStar
    else Smoke
  }

  function Stars(r: EcoRating): nat
  {
    match r
    case ThreeStars => 3
    case TwoStars => 2
    case OneStar => 1
    case Smoke => 0
  }

  /** A higher eco score never earns fewer stars. */
  lemma EcoRatingMonotone(a: real, b: real)
    requires a <= b
    ensures Stars(GetEcoRating(a)) <= Stars(GetEcoRating(b))
  {
  }

  datatype Advice = LowCarbonTrip | ModerateCarbonTrip | HighCarbonTrip

  /** The closing recommendation: eco-friendly from 7, moderate from 5, high carbon below. */
  function Recommendation(ecoScore: real): (a: Advice)
    ensures a.LowCarbonTrip? <==> ecoScore >= 7.0
    ensures a.ModerateCarbonTrip? <==> 5.0 <= ecoScore < 7.0
    ensures a.HighCarbonTrip? <==> ecoScore < 5.0
  {
    if ecoScore >= 7.0 then LowCarbonTrip
    else if ecoScore >= 5.0 then ModerateCarbonTrip
    else HighCarbonTrip
  }

  /**
   * The recommendation never contradicts the rating next to it: an eco-friendly trip has at
   * least two stars and a high-carbon trip at most one.
   */
  lemma AdviceAgreesWithRating(ecoScore: real)
    ensures Recommendation(ecoScore).LowCarbonTrip? ==> Stars(GetEcoRating(ecoScore)) >= 2
    ensures Recommendation(ecoScore).HighCarbonTrip? ==> Stars(GetEcoRating(ecoScore)) <= 1
  {
  }

  // ----- the category tally

  predicate Distinct(s: seq<string>)
  {
    forall i, j :: 0 <= i < j < |s| ==> s[i] != s[j]
  }

  /** The distinct keywords in the order they first appear: the keys of the counting dict. */
  function FirstOccurrences(ks: seq<string>): (d: seq<string>)
    ensures Distinct(d)
    ensures forall x :: x in d <==> x in ks
  {
    if ks == [] then []
    else
      var d := FirstOccurrences(ks[..|ks| - 1]);
      assert forall x :: x in ks <==> x in ks[..|ks| - 1] || x == ks[|ks| - 1] by {
        assert ks == ks[..|ks| - 1] + [ks[|ks| - 1]];
      }
      if ks[|ks| - 1] in d then d else d + [ks[|ks| - 1]]
  }

  /** Each key of `d` with its count in `m`, in the order of `d`. */
  function Pairs(d: seq<string>, m: multiset<string>): (ps: seq<(string, nat)>)
    ensures |ps| == |d|
    ensures forall i :: 0 <= i < |d| ==> ps[i] == (d[i], m[d[i]])
  {
    if d == [] then [] else Pairs(d[..|d| - 1], m) + [(d[|d| - 1], m[d[|d| - 1]])]
  }

  /** `keywords.items()` after the counting loop: each keyword with its number of places. */
  function Tally(ks: seq<string>): seq<(string, nat)>
  {
    Pairs(FirstOccurrences(ks), multiset(ks))
  }

  /** The counts of a tally, added up. */
  function CountTotal(ps: seq<(string, nat)>): nat
  {
    if ps == [] then 0 else CountTotal(ps[..|ps| - 1]) + ps[|ps| - 1].1
  }

  /** `keywords.items()` after the counting loop of `generate_trip_summary`. */
  method CountKeywords(stops: seq<Stop>) returns (counts: seq<(string, nat)>)
    ensures counts == Tally(Keywords(stops))
  {
    var order, tally := CountingLoop(stops);
    assert Keywords(stops)[..|stops|] == Keywords(stops);
    counts := seq(|order|, j requires 0 <= j < |order| => (order[j], tally[order[j]]));
    assert counts == Pairs(order, multiset(Keywords(stops)));
  }

  /** The counting loop itself: a dict from keyword to count, its keys in insertion order. */
  method CountingLoop(stops: seq<Stop>) returns (order: seq<string>, tally: map<string, nat>)
    ensures CountedUpTo(Keywords(stops), |stops|, order, tally)
  {
    ghost var ks := Keywords(stops);
    order := [];
    tally := map[];
    for i := 0 to |stops|
      invariant CountedUpTo(ks, i, order, tally)
    {
      var keyword := stops[i].keyword;
      ghost var order0, tally0 := order, tally;
      if keyword in tally {
        tally := tally[keyword := tally[keyword] + 1];
      } else {
        order := order + [keyword];
        tally := tally[keyword := 1];
      }
      CountStep(ks, i, order0, tally0, order, tally);
    }
  }

  /**
   * After the first `i` keywords: the keys in insertion order are their first occurrences,
   * the dict holds exactly those keys, and each key maps to its number of occurrences.
   */
  ghost predicate CountedUpTo(ks: seq<string>, i: nat, order: seq<string>, tally: map<string, nat>)
    requires i <= |ks|
  {
    && order == FirstOccurrences(ks[..i])
    && (forall x :: x in tally <==> x in order)
    && (forall x :: x in tally ==> tally[x] == multiset(ks[..i])[x])
  }

  /** Counting keyword `i` as the loop does keeps the counts right for one more keyword. */
  lemma CountStep(ks: seq<string>, i: nat, order: seq<string>, tally: map<string, nat>, order': seq<string>, tally': map<string, nat>)
    requires i < |ks| && CountedUpTo(ks, i, order, tally)
    requires ks[i] in tally ==> order' == order && tally' == tally[ks[i] := tally[ks[i]] + 1]
    requires ks[i] !in tally ==> order' == order + [ks[i]] && tally' == tally[ks[i] := 1]
    ensures CountedUpTo(ks, i + 1, order', tally')
  {
    var prefix, k := ks[..i + 1], ks[i];
    assert prefix == ks[..i] + [k];
    assert prefix[..|prefix| - 1] == ks[..i];
    assert order' == FirstOccurrences(prefix);
    var m := multiset(prefix);
    assert m == multiset(ks[..i]) + multiset{k};
    forall x | x in tally' ensures tally'[x] == m[x] {
      if x != k {
        assert tally'[x] == tally[x];
      }
    }
  }

  lemma {:induction false} PairsTotalAdd(d: seq<string>, m: multiset<string>, x: string)
    requires Distinct(d)
    ensures CountTotal(Pairs(d, m + multiset{x})) == CountTotal(Pairs(d, m)) + (if x in d then 1 else 0)
  {
    if d != [] {
      var init := d[..|d| - 1];
      assert x in d <==> x in init || x == d[|d| - 1] by {
        assert d == init + [d[|d| - 1]];
      }
      PairsTotalAdd(init, m, x);
    }
  }

  /** The counts of the tally add up to the number of places. */
  lemma {:induction false} TallyTotal(ks: seq<string>)
    ensures CountTotal(Tally(ks)) == |ks|
  {
    if ks != [] {
      var init, x := ks[..|ks| - 1], ks[|ks| - 1];
      TallyTotal(init);
      var d, m := FirstOccurrences(init), multiset(init);
      assert ks == init + [x];
      assert multiset(ks) == m + multiset{x};
      PairsTotalAdd(d, m, x);
      if x in d {
        assert Tally(ks) == Pairs(d, m + multiset{x});
      } else {
        assert Tally(ks) == Pairs(d + [x], m + multiset{x});
        assert (d + [x])[..|d|] == d;
        assert Pairs(d + [x], m + multiset{x}) == Pairs(d, m + multiset{x}) + [(x, (m + multiset{x})[x])];
        assert m[x] == 0;
      }
    }
  }

  /** A list without repeats has as many elements as the set of its elements. */
  lemma {:induction false} DistinctCardinality(d: seq<string>)
    requires Distinct(d)
    ensures |set x | x in d| == |d|
  {
    if d != [] {
      var init, x := d[..|d| - 1], d[|d| - 1];
      DistinctCardinality(init);
      assert d == init + [x];
      assert (set y | y in d) == (set y | y in init) + {x};
      assert x !in (set y | y in init);
    }
  }

  /** The tally has one entry per distinct keyword, as many as the set of keywords has elements. */
  lemma TallyKinds(ks: seq<string>)
    ensures |Tally(ks)| == |set x | x in ks|
  {
    var d := FirstOccurrences(ks);
    DistinctCardinality(d);
    assert (set x | x in d) == (set x | x in ks);
  }

  // ----- the narrative

  /** How a rating is drawn: one star per whole point, or a bullet for a rating of 0. */
  datatype RatingMark = Bullet | StarRun(count: nat)

  /** `"⭐" * int(rating) if rating else "•"`: a negative count repeats to nothing. */
  function MarkFor(rating: real): (m: RatingMark)
    ensures m.Bullet? <==> rating == 0.0
    ensures m.StarRun? && rating >= 0.0 ==> m.count as real <= rating < m.count as real + 1.0
    ensures m.StarRun? && rating < 0.0 ==> m.count == 0
  {
    if rating != 0.0 then StarRun(if Trunc(rating) < 0 then 0 else Trunc(rating)) else Bullet
  }

  /** The key the leg lines read a stop's carbon from. */
  datatype CarbonKey = FootprintKey | CarbonKgKey

  /**
   * `place.get(<key>, 0)`. Under `FootprintKey` (the source's `carbon_footprint_kg`) the
   * lookup never succeeds on a stop the planner built, whose carbon is stored under
   * `carbon_kg`, and the default 0 is shown.
   */
  function ShownCarbon(key: CarbonKey, s: Stop): real
  {
    match key
    case FootprintKey => 0.0
    case CarbonKgKey => s.carbonKg
  }

  datatype Line =
    | Opening(theme: Option<string>, placeCount: nat)
    | PlaceTypes(counts: seq<(string, nat)>)
    | Blank
    | RouteHeading
    | StopLine(number: nat, name: string, keyword: string, mark: RatingMark, rating: real)
    | FromStartLine(distanceKm: real)
    | LegLine(distanceKm: real, carbonKg: real)
    | StatsHeading
    | TotalDistanceLine(distanceKm: real)
    | TotalCarbonLine(carbonKg: real)
    | EcoScoreLine(ecoScore: real, ecoRating: EcoRating)
    | AdviceLine(advice: Advice)

  /** The two lines of stop `i` (0-based): its heading, then the start distance or the leg that reaches it. */
  function StopLines(key: CarbonKey, stops: seq<Stop>, i: nat): seq<Line>
    requires i < |stops|
  {
    var s := stops[i];
    [StopLine(i + 1, s.name, s.keyword, MarkFor(s.rating), s.rating),
     if i == 0 then FromStartLine(s.distanceFromStartKm) else LegLine(s.distanceFromPrevKm, ShownCarbon(key, s))]
  }

  /** The route section for the first `n` stops. */
  function RouteLines(key: CarbonKey, stops: seq<Stop>, n: nat): seq<Line>
    requires n <= |stops|
  {
    if n == 0 then [] else RouteLines(key, stops, n - 1) + StopLines(key, stops, n - 1)
  }

  /** The route section has two lines per stop. */
  lemma {:induction false} RouteLinesLength(key: CarbonKey, stops: seq<Stop>, n: nat)
    requires n <= |stops|
    ensures |RouteLines(key, stops, n)| == 2 * n
  {
    if n > 0 {
      RouteLinesLength(key, stops, n - 1);
    }
  }

  /** Lines `2i` and `2i + 1` of the route section are the two lines of stop `i`. */
  lemma {:induction false} RouteLinesAt(key: CarbonKey, stops: seq<Stop>, n: nat, i: nat)
    requires i < n <= |stops|
    ensures |RouteLines(key, stops, n)| == 2 * n
    ensures RouteLines(key, stops, n)[2 * i] == StopLines(key, stops, i)[0]
    ensures RouteLines(key, stops, n)[2 * i + 1] == StopLines(key, stops, i)[1]
  {
    RouteLinesLength(key, stops, n);
    RouteLinesLength(key, stops, n - 1);
    if i < n - 1 {
      RouteLinesAt(key, stops, n - 1, i);
    }
  }

  /** The carbon the leg lines show, added up. */
  function LegCarbonTotal(lines: seq<Line>): real
  {
    if lines == [] then 0.0
    else LegCarbonTotal(lines[..|lines| - 1]) + (if lines[|lines| - 1].LegLine? then lines[|lines| - 1].carbonKg else 0.0)
  }

  lemma {:induction false} LegCarbonTotalConcat(a: seq<Line>, b: seq<Line>)
    ensures LegCarbonTotal(a + b) == LegCarbonTotal(a) + LegCarbonTotal(b)
  {
    if b == [] {
      assert a + b == a;
    } else {
      assert (a + b)[..|a + b| - 1] == a + b[..|b| - 1];
      assert (a + b)[|a + b| - 1] == b[|b| - 1];
      LegCarbonTotalConcat(a, b[..|b| - 1]);
    }
  }

  /** The two lines of a stop show its carbon under `key`, except the first stop's, which shows none. */
  lemma StopLinesCarbon(key: CarbonKey, stops: seq<Stop>, i: nat)
    requires i < |stops|
    ensures LegCarbonTotal(StopLines(key, stops, i)) == if i == 0 then 0.0 else ShownCarbon(key, stops[i])
  {
    var sl := StopLines(key, stops, i);
    assert sl[..1][..0] == [];
    assert LegCarbonTotal(sl[..1]) == LegCarbonTotal(sl[..1][..0]) + 0.0;
    assert LegCarbonTotal(sl) == LegCarbonTotal(sl[..1]) + (if sl[1].LegLine? then sl[1].carbonKg else 0.0);
  }

  /** The route section for `n` stops is the section for `n - 1` stops followed by stop `n - 1`'s two lines. */
  lemma RouteLinesCarbonStep(key: CarbonKey, stops: seq<Stop>, n: nat)
    requires 0 < n <= |stops|
    ensures LegCarbonTotal(RouteLines(key, stops, n))
      == LegCarbonTotal(RouteLines(key, stops, n - 1)) + (if n == 1 then 0.0 else ShownCarbon(key, stops[n - 1]))
  {
    LegCarbonTotalConcat(RouteLines(key, stops, n - 1), StopLines(key, stops, n - 1));
    StopLinesCarbon(key, stops, n - 1);
  }

  /**
   * As written, the summary reads each leg's carbon under `carbon_footprint_kg`, which the
   * planner's stops do not have, so the leg lines show 0 kg in total whatever the stops carry.
   */
  lemma {:induction false} AsWrittenLegCarbonsAreZero(stops: seq<Stop>, n: nat)
    requires n <= |stops|
    ensures LegCarbonTotal(RouteLines(FootprintKey, stops, n)) == 0.0
  {
    if n > 0 {
      AsWrittenLegCarbonsAreZero(stops, n - 1);
      RouteLinesCarbonStep(FootprintKey, stops, n);
    }
  }

  /**
   * Reading `carbon_kg`, the leg lines of the first `n` stops show carbon adding up to the
   * carbon of those stops, less the first stop's, whose line shows the start distance instead.
   */
  lemma {:induction false} LegCarbonsAddUp(stops: seq<Stop>, n: nat)
    requires n <= |stops|
    ensures LegCarbonTotal(RouteLines(CarbonKgKey, stops, n)) + (if n > 0 then stops[0].carbonKg else 0.0)
      == Sum(Carbons(stops)[..n])
  {
    if n > 0 {
      LegCarbonsAddUp(stops, n - 1);
      RouteLinesCarbonStep(CarbonKgKey, stops, n);
      var cs := Carbons(stops);
      assert cs[..n][..n - 1] == cs[..n - 1];
      assert cs[..n][n - 1] == stops[n - 1].carbonKg;
      if n == 1 {
        assert cs[..0] == [];
      }
    }
  }

  /** `if theme:` — a missing or empty theme gives the generic opening. */
  function ShownTheme(theme: Option<string>): (t: Option<string>)
    ensures t.Some? <==> theme.Some? && theme.value != ""
    ensures t.Some? ==> t == theme
  {
    if theme.Some? && theme.value != "" then theme else None
  }

  datatype TripSummary = NoPlacesFound | Narrative(lines: seq<Line>)

  function Header(stops: seq<Stop>, theme: Option<string>): seq<Line>
  {
    [Opening(ShownTheme(theme), |stops|), PlaceTypes(Tally(Keywords(stops))), Blank, RouteHeading]
  }

  function Footer(totalDistance: real, totalCarbon: real, ecoScore: real): seq<Line>
  {
    [Blank, StatsHeading, TotalDistanceLine(totalDistance), TotalCarbonLine(totalCarbon),
     EcoScoreLine(ecoScore, GetEcoRating(ecoScore)), Blank, AdviceLine(Recommendation(ecoScore))]
  }

  /** The summary `generate_trip_summary` returns. */
  function TripSummaryOf(key: CarbonKey, stops: seq<Stop>, totalDistance: real, totalCarbon: real, ecoScore: real,
    theme: Option<string>): (r: TripSummary)
    ensures r.NoPlacesFound? <==> stops == []
    ensures r.Narrative? ==> |r.lines| >= 4 && r.lines[..4] == Header(stops, theme)
  {
    if stops == [] then NoPlacesFound
    else Narrative(Header(stops, theme) + RouteLines(key, stops, |stops|) + Footer(totalDistance, totalCarbon, ecoScore))
  }

  /** `generate_trip_summary`: the header, one pass over the stops, then the totals and the advice. */
  method GenerateTripSummary(key: CarbonKey, stops: seq<Stop>, totalDistance: real, totalCarbon: real,
    ecoScore: real, theme: Option<string>) returns (summary: TripSummary)
    ensures summary == TripSummaryOf(key, stops, totalDistance, totalCarbon, ecoScore, theme)
  {
    if stops == [] {
      return NoPlacesFound;
    }
    var counts := CountKeywords(stops);
    var narrative := [Opening(ShownTheme(theme), |stops|), PlaceTypes(counts), Blank, RouteHeading];
    narrative := AppendStopLines(key, stops, narrative);
    var advice;
    if ecoScore >= 7.0 {
      advice := LowCarbonTrip;
    } else if ecoScore >= 5.0 {
      advice := ModerateCarbonTrip;
    } else {
      advice := HighCarbonTrip;
    }
    assert advice == Recommendation(ecoScore);
    narrative := narrative + [Blank, StatsHeading, TotalDistanceLine(totalDistance), TotalCarbonLine(totalCarbon),
      EcoScoreLine(ecoScore, GetEcoRating(ecoScore)), Blank, AdviceLine(advice)];
    summary := Narrative(narrative);
  }

  /** The loop of `generate_trip_summary` over the stops: two lines per stop, appended in route order. */
  method AppendStopLines(key: CarbonKey, stops: seq<Stop>, lines: seq<Line>) returns (narrative: seq<Line>)
    ensures narrative == lines + RouteLines(key, stops, |stops|)
  {
    narrative := lines;
    for i := 0 to |stops|
      invariant narrative == lines + RouteLines(key, stops, i)
    {
      assert RouteLines(key, stops, i + 1) == RouteLines(key, stops, i) + StopLines(key, stops, i);
      var s := stops[i];
      var carbon := ShownCarbon(key, s);
      var mark := MarkFor(s.rating);
      if i == 0 {
        narrative := narrative + [StopLine(i + 1, s.name, s.keyword, mark, s.rating), FromStartLine(s.distanceFromStartKm)];
      } else {
        narrative := narrative + [StopLine(i + 1, s.name, s.keyword, mark, s.rating), LegLine(s.distanceFromPrevKm, carbon)];
      }
    }
  }

  /**
   * The summary of no stops is the fixed message; otherwise it has 11 lines besides two
   * per stop. It opens with the theme (when one is given) and the place count, then the
   * tally of the stops' categories, and closes with the eco rating and the advice for the
   * given score.
   */
  lemma TripSummaryFacts(key: CarbonKey, stops: seq<Stop>, totalDistance: real, totalCarbon: real, ecoScore: real,
    theme: Option<string>)
    ensures TripSummaryOf(key, stops, totalDistance, totalCarbon, ecoScore, theme).NoPlacesFound? <==> stops == []
    ensures var s := TripSummaryOf(key, stops, totalDistance, totalCarbon, ecoScore, theme);
      s.Narrative? ==>
        && |s.lines| == 11 + 2 * |stops|
        && s.lines[0] == Opening(ShownTheme(theme), |stops|)
        && s.lines[1] == PlaceTypes(Tally(Keywords(stops)))
        && s.lines[|s.lines| - 3] == EcoScoreLine(ecoScore, GetEcoRating(ecoScore))
        && s.lines[|s.lines| - 1] == AdviceLine(Recommendation(ecoScore))
  {
    if stops != [] {
      var h, r, f := Header(stops, theme), RouteLines(key, stops, |stops|), Footer(totalDistance, totalCarbon, ecoScore);
      RouteLinesLength(key, stops, |stops|);
      NarrativeParts(h, r, f);
      assert TripSummaryOf(key, stops, totalDistance, totalCarbon, ecoScore, theme).lines == h + r + f;
    }
  }

  /** Where the header's and the footer's lines fall in a narrative with a route section of any length. */
  lemma NarrativeParts(h: seq<Line>, r: seq<Line>, f: seq<Line>)
    requires |h| == 4 && |f| == 7
    ensures var lines := h + r + f;
      && |lines| == 11 + |r|
      && lines[0] == h[0] && lines[1] == h[1]
      && lines[|lines| - 3] == f[4] && lines[|lines| - 1] == f[6]
  {
  }

  /** Stop `i` of a non-empty summary is on line `4 + 2i`, numbered `i + 1`, with its name, category and rating. */
  lemma TripSummaryStop(key: CarbonKey, stops: seq<Stop>, totalDistance: real, totalCarbon: real, ecoScore: real,
    theme: Option<string>, i: nat)
    requires i < |stops|
    ensures var s := TripSummaryOf(key, stops, totalDistance, totalCarbon, ecoScore, theme);
      && s.Narrative? && |s.lines| == 11 + 2 * |stops|
      && s.lines[4 + 2 * i] == StopLine(i + 1, stops[i].name, stops[i].keyword, MarkFor(stops[i].rating), stops[i].rating)
      && s.lines[5 + 2 * i] == (if i == 0 then FromStartLine(stops[0].distanceFromStartKm)
                               else LegLine(stops[i].distanceFromPrevKm, ShownCarbon(key, stops[i])))
  {
    RouteLinesAt(key, stops, |stops|, i);
    RouteLinesLength(key, stops, |stops|);
    var route := RouteLines(key, stops, |stops|);
    NarrativeRoute(Header(stops, theme), route, Footer(totalDistance, totalCarbon, ecoScore), 2 * i);
    NarrativeRoute(Header(stops, theme), route, Footer(totalDistance, totalCarbon, ecoScore), 2 * i + 1);
  }

  /** Line `j` of the route section is line `4 + j` of the narrative. */
  lemma NarrativeRoute(h: seq<Line>, r: seq<Line>, f: seq<Line>, j: nat)
    requires |h| == 4 && |f| == 7 && j < |r|
    ensures |h + r + f| == 11 + |r| && (h + r + f)[4 + j] == r[j]
  {
  }

  // ----- directions

  datatype DirectionStep = StartAt(name: string) | Drive(direction: Direction, distanceKm: real, name: string)

  /** The directions `generate_route_directions` returns: start at the first stop, then one heading per leg. */
  function RouteDirections(stops: seq<Stop>): (steps: seq<DirectionStep>)
    ensures |steps| == |stops|
    ensures forall k :: 0 <= k < |stops| ==> (steps[k].Drive? <==> k > 0)
  {
    seq(|stops|, k requires 0 <= k < |stops| =>
      if k == 0 then StartAt(stops[0].name)
      else Drive(CalculateDirection(stops[k - 1].lat, stops[k - 1].lng, stops[k].lat, stops[k].lng),
        stops[k].distanceFromPrevKm, stops[k].name))
  }

  method GenerateRouteDirections(stops: seq<Stop>) returns (directions: seq<DirectionStep>)
    ensures directions == RouteDirections(stops)
  {
    directions := [];
    for i := 0 to |stops|
      invariant directions == RouteDirections(stops)[..i]
    {
      var s := stops[i];
      if i == 0 {
        directions := directions + [StartAt(s.name)];
      } else {
        var direction := CalculateDirection(stops[i - 1].lat, stops[i - 1].lng, s.lat, s.lng);
        directions := directions + [Drive(direction, s.distanceFromPrevKm, s.name)];
      }
    }
  }

  /**
   * Driving the route backwards reverses the headings: leg `k` of the reversed route heads
   * opposite to leg `n - k` of the route, as long as no two consecutive stops coincide.
   */
  lemma ReversedRouteDirections(stops: seq<Stop>)
    requires forall k :: 0 < k < |stops| ==> (stops[k - 1].lat, stops[k - 1].lng) != (stops[k].lat, stops[k].lng)
    ensures var n, back := |stops|, RouteDirections(Reversed(stops));
      forall k :: 0 < k < n ==> back[k].Drive? && back[k].direction == Opposite(RouteDirections(stops)[n - k].direction)
  {
    var n, r := |stops|, Reversed(stops);
    forall k | 0 < k < n
      ensures RouteDirections(r)[k].Drive? && RouteDirections(r)[k].direction == Opposite(RouteDirections(stops)[n - k].direction)
    {
      var a, b := stops[n - k - 1], stops[n - k];
      assert r[k - 1] == b && r[k] == a;
      assert RouteDirections(r)[k] == Drive(CalculateDirection(b.lat, b.lng, a.lat, a.lng), a.distanceFromPrevKm, a.name);
      assert RouteDirections(stops)[n - k] == Drive(CalculateDirection(a.lat, a.lng, b.lat, b.lng), b.distanceFromPrevKm, b.name);
      ReversedLegIsOpposite(a.lat, a.lng, b.lat, b.lng);
    }
  }

  // ----- the compact summary

  datatype KindLabel = OneKind(keyword: string) | KindCount(count: nat)

  datatype CompactSummary = NothingFound | Compact(placeCount: nat, kinds: KindLabel, distanceKm: real, carbonKg: real, ecoScore: real)

  /**
   * `generate_compact_summary`: the number of places, the one category when all share it
   * and otherwise the number of categories, and the totals.
   */
  function GenerateCompactSummary(stops: seq<Stop>, totalDistance: real, totalCarbon: real, ecoScore: real): (c: CompactSummary)
    ensures c.NothingFound? <==> stops == []
    ensures c.Compact? ==> c.placeCount == |stops|
    ensures c.Compact? ==> (c.kinds.OneKind? <==> forall k :: 0 <= k < |stops| ==> stops[k].keyword == stops[0].keyword)
    ensures c.Compact? && c.kinds.OneKind? ==> c.kinds.keyword == stops[0].keyword
    ensures c.Compact? && c.kinds.KindCount? ==> c.kinds.count >= 2
  {
    if stops == [] then NothingFound
    else
      var kinds := set k | 0 <= k < |stops| :: stops[k].keyword;
      SingleKind(stops, kinds);
      Compact(|stops|, if |kinds| == 1 then OneKind(stops[0].keyword) else KindCount(|kinds|),
        totalDistance, totalCarbon, ecoScore)
  }

  /** The set of categories has one element exactly when every stop shares the first stop's, and none only for no stops. */
  lemma SingleKind(stops: seq<Stop>, kinds: set<string>)
    requires stops != [] && kinds == set k | 0 <= k < |stops| :: stops[k].keyword
    ensures |kinds| >= 1
    ensures |kinds| == 1 <==> forall k :: 0 <= k < |stops| ==> stops[k].keyword == stops[0].keyword
  {
    var first := stops[0].keyword;
    assert first in kinds;
    if forall k :: 0 <= k < |stops| ==> stops[k].keyword == first {
      assert kinds == {first};
    } else {
      var k :| 0 <= k < |stops| && stops[k].keyword != first;
      assert stops[k].keyword in kinds - {first};
      assert |kinds - {first}| == |kinds| - 1;
    }
  }

  /** The compact summary's count of categories is the number of entries in the narrative's tally. */
  lemma CompactKindsMatchTally(stops: seq<Stop>, totalDistance: real, totalCarbon: real, ecoScore: real)
    ensures var c := GenerateCompactSummary(stops, totalDistance, totalCarbon, ecoScore);
      c.Compact? && c.kinds.KindCount? ==> c.kinds.count == |Tally(Keywords(stops))|
  {
    var ks := Keywords(stops);
    TallyKinds(ks);
    assert (set x | x in ks) == (set k | 0 <= k < |stops| :: stops[k].keyword) by {
      forall x | x in ks ensures x in (set k | 0 <= k < |stops| :: stops[k].keyword) {
        var k :| 0 <= k < |ks| && ks[k] == x;
      }
    }
  }
}
