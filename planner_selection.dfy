/**
 * How `TripPlanner` narrows the table down to the places of a trip: the radius filter around
 * the start, the theme's keyword filter, min-max normalisation of a column, the weighted
 * theme score, the similarity to a target place, and pandas' `nlargest` (ties kept in
 * table order).
 *
 * A filtered table is a sequence of `Candidate`s: a row together with its
 * `distance_from_center` column. Positions in that sequence play the part of the
 * DataFrame's index.
 */
module TripSelection {
  import opened Numeric
  import opened Seqs
  import opened Config
  import opened GeoUtils
  import opened DataLoading
  import opened RouteOptimizer

  // ---------------------------------------------------------------- radius and keyword filters

  /** A row of the filtered table, with the distance from the centre the radius filter added. */
  datatype Candidate = Candidate(place: Place, distanceFromCenter: real)

  /** The row's `(lat, lng)`. */
  function Position(p: Place): Coord
  {
    Coord(p.lat, p.lng)
  }

  function Positions(places: seq<Place>): (cs: seq<Coord>)
    ensures |cs| == |places| && forall k :: 0 <= k < |places| ==> cs[k] == Position(places[k])
  {
    seq(|places|, k requires 0 <= k < |places| => Position(places[k]))
  }

  /** The table with the `distance_from_center` column, computed by the vectorised distance. */
  function WithDistances(dist: Haversine, table: seq<Place>, center: Coord): (cs: seq<Candidate>)
    ensures |cs| == |table|
    ensures forall k :: 0 <= k < |table| ==> cs[k].place == table[k] && cs[k].distanceFromCenter == dist(center, Position(table[k]))
  {
    var d := DistancesVectorized(dist, center, Positions(table));
    seq(|table|, k requires 0 <= k < |table| => Candidate(table[k], d[k]))
  }

  /** `_filter_by_distance`: the rows at most `maxKm` from the centre, in table order. */
  function FilterByDistance(dist: Haversine, table: seq<Place>, center: Coord, maxKm: real): (r: seq<Candidate>)
    ensures |r| <= |table|
    ensures forall k :: 0 <= k < |r| ==> r[k].distanceFromCenter <= maxKm
  {
    Filter(WithDistances(dist, table, center), (c: Candidate) => c.distanceFromCenter <= maxKm)
  }

  /**
   * A candidate survives the radius filter exactly when its row is in the table, its
   * distance column is the row's distance from the centre, and that distance is within the radius.
   */
  lemma FilterByDistanceMembership(dist: Haversine, table: seq<Place>, center: Coord, maxKm: real, c: Candidate)
    ensures c in FilterByDistance(dist, table, center, maxKm) <==>
      c.place in table && c.distanceFromCenter == dist(center, Position(c.place)) && IsWithinRadius(dist, center, Position(c.place), maxKm)
  {
    var all := WithDistances(dist, table, center);
    FilterMembership(all, (c: Candidate) => c.distanceFromCenter <= maxKm, c);
    if c.place in table && c.distanceFromCenter == dist(center, Position(c.place)) {
      var k :| 0 <= k < |table| && table[k] == c.place;
      assert all[k] == c;
    }
  }

  /** The theme's keyword filter, applied only when the theme lists keywords. */
  function KeywordFilter(cands: seq<Candidate>, keywords: seq<string>): (r: seq<Candidate>)
    ensures |r| <= |cands|
    ensures keywords != [] ==> forall k :: 0 <= k < |r| ==> r[k].place.keyword in keywords
  {
    if keywords == [] then cands else Filter(cands, (c: Candidate) => c.place.keyword in keywords)
  }

  /** A keyword list keeps exactly the candidates of a listed category; no list keeps them all. */
  lemma KeywordFilterMembership(cands: seq<Candidate>, keywords: seq<string>, c: Candidate)
    ensures c in KeywordFilter(cands, keywords) <==> c in cands && (keywords == [] || c.place.keyword in keywords)
    ensures keywords == [] ==> KeywordFilter(cands, keywords) == cands
  {
    if keywords != [] {
      FilterMembership(cands, (c: Candidate) => c.place.keyword in keywords, c);
    }
  }

  // ---------------------------------------------------------------- normalisation

  /** `series.min()` of a non-empty column. */
  function SeqMin(xs: seq<real>): real
    requires |xs| > 0
  {
    if |xs| == 1 then xs[0] else Min(xs[0], SeqMin(xs[1..]))
  }

  /** `series.max()` of a non-empty column. */
  function SeqMax(xs: seq<real>): real
    requires |xs| > 0
  {
    if |xs| == 1 then xs[0] else Max(xs[0], SeqMax(xs[1..]))
  }

  /** The minimum and the maximum are values of the column that bound all the others. */
  lemma {:induction false} SeqMinMaxFacts(xs: seq<real>)
    requires |xs| > 0
    ensures forall k :: 0 <= k < |xs| ==> SeqMin(xs) <= xs[k] <= SeqMax(xs)
    ensures exists k :: 0 <= k < |xs| && SeqMin(xs) == xs[k]
    ensures exists k :: 0 <= k < |xs| && SeqMax(xs) == xs[k]
  {
    if |xs| > 1 {
      SeqMinMaxFacts(xs[1..]);
      assert forall k :: 1 <= k < |xs| ==> xs[k] == xs[1..][k - 1];
      var a :| 0 <= a < |xs[1..]| && SeqMin(xs[1..]) == xs[1..][a];
      var b :| 0 <= b < |xs[1..]| && SeqMax(xs[1..]) == xs[1..][b];
      assert xs[a + 1] == SeqMin(xs[1..]) && xs[b + 1] == SeqMax(xs[1..]);
      if SeqMin(xs) != xs[0] {
        assert SeqMin(xs) == xs[a + 1];
      }
      if SeqMax(xs) != xs[0] {
        assert SeqMax(xs) == xs[b + 1];
      }
    } else {
      assert SeqMin(xs) == xs[0] == SeqMax(xs);
    }
  }

  /** Where `x` falls between `lo` and `hi`, as a fraction of the range. */
  function Scale(x: real, lo: real, hi: real): real
    requires lo < hi
  {
    (x - lo) / (hi - lo)
  }

  /** Inside the range the fraction lies in [0, 1], grows with `x`, and is 0 and 1 at the ends. */
  lemma ScaleFacts(x: real, y: real, lo: real, hi: real)
    requires lo < hi && lo <= x <= hi && lo <= y <= hi
    ensures 0.0 <= Scale(x, lo, hi) <= 1.0
    ensures x <= y ==> Scale(x, lo, hi) <= Scale(y, lo, hi)
    ensures Scale(lo, lo, hi) == 0.0 && Scale(hi, lo, hi) == 1.0
  {
    var d := hi - lo;
    DivideBounds(0.0, x - lo, d);
    DivideBounds(x - lo, d, d);
    if x <= y {
      DivideBounds(x - lo, y - lo, d);
    }
  }

  lemma DivideBounds(a: real, b: real, d: real)
    requires d > 0.0 && a <= b
    ensures a / d <= b / d
    ensures 0.0 / d == 0.0 && d / d == 1.0
  {
    assert b / d - a / d == (b - a) / d;
  }

  /**
   * `_normalize_column`: `(x - min) / (max - min)`, or 0.5 everywhere when the column is
   * constant. An empty column stays empty (pandas' NaN minimum never equals itself).
   */
  function NormalizeColumn(xs: seq<real>): (r: seq<real>)
    ensures |r| == |xs|
  {
    if xs == [] then []
    else
      var lo, hi := SeqMin(xs), SeqMax(xs);
      if hi == lo then seq(|xs|, k => 0.5)
      else seq(|xs|, k requires 0 <= k < |xs| => Scale(xs[k], lo, hi))
  }

  /** A column is constant exactly when its minimum is its maximum. */
  lemma ConstantColumn(xs: seq<real>)
    requires |xs| > 0
    ensures SeqMin(xs) == SeqMax(xs) <==> forall k :: 0 <= k < |xs| ==> xs[k] == xs[0]
  {
    SeqMinMaxFacts(xs);
  }

  /** The normalised values at two positions of the column. */
  lemma NormalizedAt(xs: seq<real>, i: nat, j: nat)
    requires i < |xs| && j < |xs|
    ensures var r := NormalizeColumn(xs);
      && 0.0 <= r[i] <= 1.0
      && (xs[i] <= xs[j] ==> r[i] <= r[j])
      && (SeqMin(xs) == SeqMax(xs) ==> r[i] == 0.5)
      && (SeqMin(xs) != SeqMax(xs) ==> (xs[i] == SeqMin(xs) ==> r[i] == 0.0) && (xs[i] == SeqMax(xs) ==> r[i] == 1.0))
  {
    var lo, hi := SeqMin(xs), SeqMax(xs);
    SeqMinMaxFacts(xs);
    if lo != hi {
      ScaleFacts(xs[i], xs[j], lo, hi);
    }
  }

  /**
   * Normalised values lie in [0, 1] and keep the column's order; a constant column maps to
   * 0.5 throughout, and otherwise the minimum maps to 0 and the maximum to 1.
   */
  lemma NormalizeColumnFacts(xs: seq<real>)
    ensures var r := NormalizeColumn(xs);
      && (forall k :: 0 <= k < |xs| ==> 0.0 <= r[k] <= 1.0)
      && (forall i, j :: 0 <= i < |xs| && 0 <= j < |xs| && xs[i] <= xs[j] ==> r[i] <= r[j])
    ensures xs != [] && (forall k :: 0 <= k < |xs| ==> xs[k] == xs[0]) ==>
      forall k :: 0 <= k < |xs| ==> NormalizeColumn(xs)[k] == 0.5
    ensures xs != [] && (exists k :: 0 <= k < |xs| && xs[k] != xs[0]) ==>
      forall k :: 0 <= k < |xs| ==>
        (xs[k] == SeqMin(xs) ==> NormalizeColumn(xs)[k] == 0.0) && (xs[k] == SeqMax(xs) ==> NormalizeColumn(xs)[k] == 1.0)
  {
    if xs != [] {
      ConstantColumn(xs);
      forall i, j | 0 <= i < |xs| && 0 <= j < |xs| {
        NormalizedAt(xs, i, j);
      }
    }
  }

  // ---------------------------------------------------------------- theme score

  /** One feature column of the filtered table. */
  function Feature(cands: seq<Candidate>, f: Candidate -> real): (xs: seq<real>)
    ensures |xs| == |cands| && forall k :: 0 <= k < |cands| ==> xs[k] == f(cands[k])
  {
    seq(|cands|, k requires 0 <= k < |cands| => f(cands[k]))
  }

  function Popularity(c: Candidate): real { c.place.popularityScore }
  function Tourism(c: Candidate): real { c.place.tourismScore }
  function TransportCarbonKg(c: Candidate): real { c.place.estimatedTransportCarbonKg }
  function CenterDistance(c: Candidate): real { c.distanceFromCenter }

  /** The weighted sum of the five normalised features, with `SCORING_WEIGHTS`. */
  function FinalScore(tourism: real, rating: real, carbon: real, popularity: real, distance: real): real
  {
    tourism * Scoring.tourismScore + rating * Scoring.rating + carbon * Scoring.carbon
    + popularity * Scoring.popularity + distance * Scoring.distance
  }

  /** Features in [0, 1] give a score in [0, 1], and a score never drops when no feature does. */
  lemma FinalScoreFacts(t1: real, r1: real, c1: real, p1: real, d1: real, t2: real, r2: real, c2: real, p2: real, d2: real)
    ensures 0.0 <= t1 <= 1.0 && 0.0 <= r1 <= 1.0 && 0.0 <= c1 <= 1.0 && 0.0 <= p1 <= 1.0 && 0.0 <= d1 <= 1.0 ==>
      0.0 <= FinalScore(t1, r1, c1, p1, d1) <= 1.0
    ensures t1 <= t2 && r1 <= r2 && c1 <= c2 && p1 <= p2 && d1 <= d2 ==>
      FinalScore(t1, r1, c1, p1, d1) <= FinalScore(t2, r2, c2, p2, d2)
  {
    assert Scoring == ScoringWeights(0.30, 0.20, 0.25, 0.15, 0.10);
  }

  /**
   * `_calculate_scores`: rating over 5, min-max normalised popularity and tourism, and one
   * minus the normalised transport carbon and distance from the centre (less is better).
   */
  function CalculateScores(cands: seq<Candidate>): (scores: seq<real>)
    ensures |scores| == |cands|
  {
    var popularity := NormalizeColumn(Feature(cands, Popularity));
    var tourism := NormalizeColumn(Feature(cands, Tourism));
    var carbon := NormalizeColumn(Feature(cands, TransportCarbonKg));
    var distance := NormalizeColumn(Feature(cands, CenterDistance));
    seq(|cands|, k requires 0 <= k < |cands| =>
      FinalScore(tourism[k], cands[k].place.rating / 5.0, 1.0 - carbon[k], popularity[k], 1.0 - distance[k]))
  }

  /** The normalised features of candidates `i` and `j`, compared feature by feature. */
  lemma FeaturesAt(cands: seq<Candidate>, i: nat, j: nat)
    requires i < |cands| && j < |cands|
    ensures var n := NormalizeColumn(Feature(cands, Tourism)); 0.0 <= n[i] <= 1.0 && (Tourism(cands[i]) <= Tourism(cands[j]) ==> n[i] <= n[j])
    ensures var n := NormalizeColumn(Feature(cands, Popularity)); 0.0 <= n[i] <= 1.0 && (Popularity(cands[i]) <= Popularity(cands[j]) ==> n[i] <= n[j])
    ensures var n := NormalizeColumn(Feature(cands, TransportCarbonKg)); 0.0 <= n[i] <= 1.0 && (TransportCarbonKg(cands[i]) <= TransportCarbonKg(cands[j]) ==> n[i] <= n[j])
    ensures var n := NormalizeColumn(Feature(cands, CenterDistance)); 0.0 <= n[i] <= 1.0 && (CenterDistance(cands[i]) <= CenterDistance(cands[j]) ==> n[i] <= n[j])
  {
    NormalizedAt(Feature(cands, Tourism), i, j);
    NormalizedAt(Feature(cands, Popularity), i, j);
    NormalizedAt(Feature(cands, TransportCarbonKg), i, j);
    NormalizedAt(Feature(cands, CenterDistance), i, j);
  }

  /** With ratings on the 0-5 scale every score lies in [0, 1]: the weights sum to one. */
  lemma ScoresInRange(cands: seq<Candidate>)
    requires forall k :: 0 <= k < |cands| ==> 0.0 <= cands[k].place.rating <= 5.0
    ensures forall k :: 0 <= k < |cands| ==> 0.0 <= CalculateScores(cands)[k] <= 1.0
  {
    var scores := CalculateScores(cands);
    forall k | 0 <= k < |cands| ensures 0.0 <= scores[k] <= 1.0 {
      FeaturesAt(cands, k, k);
      var t, p := NormalizeColumn(Feature(cands, Tourism))[k], NormalizeColumn(Feature(cands, Popularity))[k];
      var c, d := NormalizeColumn(Feature(cands, TransportCarbonKg))[k], NormalizeColumn(Feature(cands, CenterDistance))[k];
      var r := cands[k].place.rating / 5.0;
      FinalScoreFacts(t, r, 1.0 - c, p, 1.0 - d, t, r, 1.0 - c, p, 1.0 - d);
    }
  }

  /**
   * A candidate at least as touristic, popular and well rated as another, with no more
   * transport carbon and no farther from the centre, scores at least as high.
   */
  lemma ScoreDominance(cands: seq<Candidate>, i: nat, j: nat)
    requires i < |cands| && j < |cands|
    requires Tourism(cands[j]) <= Tourism(cands[i]) && Popularity(cands[j]) <= Popularity(cands[i])
    requires cands[j].place.rating <= cands[i].place.rating
    requires TransportCarbonKg(cands[i]) <= TransportCarbonKg(cands[j]) && CenterDistance(cands[i]) <= CenterDistance(cands[j])
    ensures CalculateScores(cands)[j] <= CalculateScores(cands)[i]
  {
    FeaturesAt(cands, i, j);
    FeaturesAt(cands, j, i);
    var t, p := NormalizeColumn(Feature(cands, Tourism)), NormalizeColumn(Feature(cands, Popularity));
    var c, d := NormalizeColumn(Feature(cands, TransportCarbonKg)), NormalizeColumn(Feature(cands, CenterDistance));
    FinalScoreFacts(t[j], cands[j].place.rating / 5.0, 1.0 - c[j], p[j], 1.0 - d[j],
                    t[i], cands[i].place.rating / 5.0, 1.0 - c[i], p[i], 1.0 - d[i]);
  }

  // ---------------------------------------------------------------- similarity

  /** `_find_similar_places`: 0.4 for the same keyword, 0.3 each for close tourism score and rating. */
  function Similarity(p: Place, target: Place): (s: real)
    ensures s <= 1.0
    ensures p.keyword != target.keyword ==> s <= 0.6
  {
    (if p.keyword == target.keyword then 1.0 else 0.0) * 0.40
    + (1.0 - Abs(p.tourismScore - target.tourismScore)) * 0.30
    + (1.0 - Abs(p.rating - target.rating) / 5.0) * 0.30
  }

  /** The `similarity_score` column. */
  function SimilarityScores(cands: seq<Candidate>, target: Place): (scores: seq<real>)
    ensures |scores| == |cands| && forall k :: 0 <= k < |cands| ==> scores[k] == Similarity(cands[k].place, target)
  {
    seq(|cands|, k requires 0 <= k < |cands| => Similarity(cands[k].place, target))
  }

  /**
   * A place is at most fully similar, fully similar exactly when it shares the target's
   * keyword, tourism score and rating, and similarity is symmetric; for tourism scores on
   * [0, 1] and ratings on [0, 5] it is never negative.
   */
  lemma SimilarityFacts(p: Place, target: Place)
    ensures Similarity(p, target) <= 1.0
    ensures Similarity(p, target) == 1.0 <==>
      p.keyword == target.keyword && p.tourismScore == target.tourismScore && p.rating == target.rating
    ensures Similarity(p, target) == Similarity(target, p)
    ensures Abs(p.tourismScore - target.tourismScore) <= 1.0 && Abs(p.rating - target.rating) <= 5.0 ==>
      Similarity(p, target) >= 0.0
  {
    var a, b := Abs(p.tourismScore - target.tourismScore), Abs(p.rating - target.rating);
    assert a == Abs(target.tourismScore - p.tourismScore) && b == Abs(target.rating - p.rating);
  }

  // ---------------------------------------------------------------- nlargest

  /** The position in `cand` of the first candidate with the largest score. */
  function BestPosition(scores: seq<real>, cand: seq<nat>): (p: nat)
    requires cand != [] && ValidRoute(cand, |scores|)
    ensures p < |cand|
    ensures forall k :: 0 <= k < |cand| ==> scores[cand[k]] <= scores[cand[p]]
    ensures forall k :: 0 <= k < p ==> scores[cand[k]] < scores[cand[p]]
  {
    if |cand| == 1 then 0
    else
      var q := BestPosition(scores, cand[..|cand| - 1]);
      assert forall k :: 0 <= k < |cand| - 1 ==> cand[..|cand| - 1][k] == cand[k];
      if scores[cand[|cand| - 1]] > scores[cand[q]] then |cand| - 1 else q
  }

  /** Repeatedly take the best remaining candidate, `n` times or until none remain. */
  function TopN(scores: seq<real>, cand: seq<nat>, n: nat): (r: seq<nat>)
    requires ValidRoute(cand, |scores|)
    decreases n
  {
    if n == 0 || cand == [] then []
    else
      var p := BestPosition(scores, cand);
      [cand[p]] + TopN(scores, RemoveAt(cand, p), n - 1)
  }

  predicate Increasing(s: seq<nat>)
  {
    forall i, j :: 0 <= i < j < |s| ==> s[i] < s[j]
  }

  lemma RemoveAtFacts(s: seq<nat>, p: nat, n: nat)
    requires p < |s| && ValidRoute(s, n)
    ensures ValidRoute(RemoveAt(s, p), n)
    ensures Increasing(s) ==> Increasing(RemoveAt(s, p))
  {
    var r := RemoveAt(s, p);
    assert forall k :: 0 <= k < |r| ==> r[k] == if k < p then s[k] else s[k + 1];
  }

  /** A candidate scores no more than the best one, and is a row of the table. */
  lemma BelowBest(scores: seq<real>, cand: seq<nat>, x: nat)
    requires ValidRoute(cand, |scores|) && cand != [] && x in multiset(cand)
    ensures x < |scores| && scores[x] <= scores[cand[BestPosition(scores, cand)]]
  {
    var k :| 0 <= k < |cand| && cand[k] == x;
  }

  /** The selection has `min(n, |cand|)` entries, all drawn from the candidates. */
  lemma {:induction false} TopNDrawn(scores: seq<real>, cand: seq<nat>, n: nat)
    requires ValidRoute(cand, |scores|)
    ensures var r := TopN(scores, cand, n);
      && |r| == MinInt(n, |cand|)
      && multiset(r) <= multiset(cand)
      && ValidRoute(r, |scores|)
    decreases n
  {
    if n > 0 && cand != [] {
      var p := BestPosition(scores, cand);
      var rest: seq<nat> := RemoveAt(cand, p);
      RemoveAtFacts(cand, p, |scores|);
      RemoveAtMultiset(cand, p);
      TopNDrawn(scores, rest, n - 1);
      var tail: seq<nat> := TopN(scores, rest, n - 1);
      var r: seq<nat> := TopN(scores, cand, n);
      assert r == [cand[p]] + tail;
      assert multiset(r) == multiset(tail) + multiset{cand[p]};
      forall k | 0 <= k < |r| ensures r[k] < |scores| {
        if k > 0 {
          assert r[k] == tail[k - 1];
        }
      }
    }
  }

  /** The selection is in non-increasing score order. */
  lemma {:induction false} TopNDescending(scores: seq<real>, cand: seq<nat>, n: nat)
    requires ValidRoute(cand, |scores|)
    ensures var r := TopN(scores, cand, n);
      ValidRoute(r, |scores|) && forall i, j :: 0 <= i < j < |r| ==> scores[r[j]] <= scores[r[i]]
    decreases n
  {
    TopNDrawn(scores, cand, n);
    if n > 0 && cand != [] {
      var p := BestPosition(scores, cand);
      var rest: seq<nat> := RemoveAt(cand, p);
      RemoveAtFacts(cand, p, |scores|);
      TopNDescending(scores, rest, n - 1);
      TopNDrawn(scores, rest, n - 1);
      var tail: seq<nat> := TopN(scores, rest, n - 1);
      var r: seq<nat> := TopN(scores, cand, n);
      assert r == [cand[p]] + tail;
      BestInFront(scores, cand, r, tail);
    }
  }

  /** The best candidate in front of a non-increasing selection drawn from the candidates keeps it non-increasing. */
  lemma BestInFront(scores: seq<real>, cand: seq<nat>, r: seq<nat>, tail: seq<nat>)
    requires ValidRoute(cand, |scores|) && cand != [] && ValidRoute(r, |scores|) && ValidRoute(tail, |scores|)
    requires r == [cand[BestPosition(scores, cand)]] + tail && multiset(r) <= multiset(cand)
    requires forall i, j :: 0 <= i < j < |tail| ==> scores[tail[j]] <= scores[tail[i]]
    ensures forall i, j :: 0 <= i < j < |r| ==> scores[r[j]] <= scores[r[i]]
  {
    var best := cand[BestPosition(scores, cand)];
    forall k | 0 <= k < |tail| ensures scores[tail[k]] <= scores[best] {
      assert tail[k] == r[k + 1];
      DrawnFrom(r, cand, k + 1);
      BelowBest(scores, cand, tail[k]);
    }
    ConsDescending(scores, best, tail);
  }

  lemma DrawnFrom(r: seq<nat>, cand: seq<nat>, i: nat)
    requires i < |r| && multiset(r) <= multiset(cand)
    ensures r[i] in multiset(cand)
  {
    assert r[i] in multiset(r);
  }

  /** A score at least as high as every one of a non-increasing selection can go in front of it. */
  lemma ConsDescending(scores: seq<real>, x: nat, tail: seq<nat>)
    requires x < |scores| && ValidRoute(tail, |scores|)
    requires forall i, j :: 0 <= i < j < |tail| ==> scores[tail[j]] <= scores[tail[i]]
    requires forall k :: 0 <= k < |tail| ==> scores[tail[k]] <= scores[x]
    ensures var r := [x] + tail; forall i, j :: 0 <= i < j < |r| ==> scores[r[j]] <= scores[r[i]]
  {
    var r := [x] + tail;
    forall i, j | 0 <= i < j < |r| ensures scores[r[j]] <= scores[r[i]] {
      assert r[j] == tail[j - 1];
      if i > 0 {
        assert r[i] == tail[i - 1];
      }
    }
  }

  /** A candidate left out of the selection scores no more than the `i`-th one taken. */
  lemma {:induction false} TopNBeatsRest(scores: seq<real>, cand: seq<nat>, n: nat, i: nat, x: nat)
    requires ValidRoute(cand, |scores|)
    requires i < |TopN(scores, cand, n)| && x in cand && x !in TopN(scores, cand, n)
    ensures TopN(scores, cand, n)[i] < |scores| && x < |scores|
    ensures scores[x] <= scores[TopN(scores, cand, n)[i]]
    decreases n
  {
    TopNDrawn(scores, cand, n);
    var p := BestPosition(scores, cand);
    var rest: seq<nat> := RemoveAt(cand, p);
    RemoveAtFacts(cand, p, |scores|);
    var tail: seq<nat> := TopN(scores, rest, n - 1);
    var r: seq<nat> := TopN(scores, cand, n);
    assert r == [cand[p]] + tail;
    BelowBest(scores, cand, x);
    if i > 0 {
      assert r[i] == tail[i - 1];
      RemoveAtMembers(cand, p, x);
      TopNBeatsRest(scores, rest, n - 1, i - 1, x);
    }
  }

  /**
   * `keep='first'`: over candidates listed in table order, a candidate left out that ties
   * with the `i`-th one taken comes after it in the list.
   */
  lemma {:induction false} TopNTies(scores: seq<real>, cand: seq<nat>, n: nat, i: nat, x: nat)
    requires ValidRoute(cand, |scores|) && Increasing(cand)
    requires i < |TopN(scores, cand, n)| && x in cand && x !in TopN(scores, cand, n)
    requires TopN(scores, cand, n)[i] < |scores| && x < |scores|
    requires scores[x] == scores[TopN(scores, cand, n)[i]]
    ensures TopN(scores, cand, n)[i] < x
    decreases n
  {
    var p := BestPosition(scores, cand);
    var rest: seq<nat> := RemoveAt(cand, p);
    RemoveAtFacts(cand, p, |scores|);
    var tail: seq<nat> := TopN(scores, rest, n - 1);
    var r: seq<nat> := TopN(scores, cand, n);
    assert r == [cand[p]] + tail;
    if i == 0 {
      TieComesLater(scores, cand, x);
    } else {
      assert r[i] == tail[i - 1];
      RemoveAtMembers(cand, p, x);
      TopNTies(scores, rest, n - 1, i - 1, x);
    }
  }

  /** Removing one position keeps every other value. */
  lemma RemoveAtMembers(s: seq<nat>, p: nat, x: nat)
    requires p < |s| && x in s && x != s[p]
    ensures x in RemoveAt(s, p)
  {
    var k :| 0 <= k < |s| && s[k] == x;
    if k < p {
      assert RemoveAt(s, p)[k] == x;
    } else {
      assert RemoveAt(s, p)[k - 1] == x;
    }
  }

  /** In an increasing list, a candidate other than the first best that ties with it comes later. */
  lemma TieComesLater(scores: seq<real>, cand: seq<nat>, x: nat)
    requires ValidRoute(cand, |scores|) && Increasing(cand) && cand != []
    requires x in cand && x != cand[BestPosition(scores, cand)] && x < |scores|
    requires scores[x] == scores[cand[BestPosition(scores, cand)]]
    ensures cand[BestPosition(scores, cand)] < x
  {
    var p := BestPosition(scores, cand);
    var k :| 0 <= k < |cand| && cand[k] == x;
    assert k != p;
  }

  /**
   * `nlargest(min(n, len), column)`: the positions of the `min(n, len)` best rows, best first
   * and ties in table order.
   */
  function SelectTop(scores: seq<real>, n: nat): seq<nat>
  {
    TopN(scores, Range(|scores|), MinInt(n, |scores|))
  }

  /**
   * The selection takes `min(n, len)` distinct rows, best first; no row left out scores above
   * a row taken, and a row left out that ties with a row taken comes after it in the table.
   */
  lemma SelectTopFacts(scores: seq<real>, n: nat)
    ensures var r := SelectTop(scores, n);
      && |r| == MinInt(n, |scores|)
      && ValidRoute(r, |scores|)
      && (forall i, j :: 0 <= i < j < |r| ==> r[i] != r[j])
      && (forall i, j :: 0 <= i < j < |r| ==> scores[r[j]] <= scores[r[i]])
      && (forall i, x: nat :: 0 <= i < |r| && x < |scores| && x !in r ==> scores[x] <= scores[r[i]])
      && (forall i, x: nat :: 0 <= i < |r| && x < |scores| && x !in r && scores[x] == scores[r[i]] ==> r[i] < x)
  {
    var all: seq<nat> := Range(|scores|);
    var r: seq<nat> := SelectTop(scores, n);
    SelectTopDistinct(scores, n);
    TopNDescending(scores, all, MinInt(n, |scores|));
    assert Increasing(all);
    forall i, x: nat | 0 <= i < |r| && x < |scores| && x !in r
      ensures scores[x] <= scores[r[i]]
      ensures scores[x] == scores[r[i]] ==> r[i] < x
    {
      assert all[x] == x;
      TopNBeatsRest(scores, all, MinInt(n, |scores|), i, x);
      if scores[x] == scores[r[i]] {
        TopNTies(scores, all, MinInt(n, |scores|), i, x);
      }
    }
  }

  /** The selection has `min(n, len)` rows of the table and takes no row twice. */
  lemma SelectTopDistinct(scores: seq<real>, n: nat)
    ensures var r := SelectTop(scores, n);
      && |r| == MinInt(n, |scores|)
      && ValidRoute(r, |scores|)
      && (forall i, j :: 0 <= i < j < |r| ==> r[i] != r[j])
  {
    var all: seq<nat> := Range(|scores|);
    var r: seq<nat> := SelectTop(scores, n);
    TopNDrawn(scores, all, MinInt(n, |scores|));
    RangeCounts(|scores|);
    forall i, j | 0 <= i < j < |r| ensures r[i] != r[j] {
      if r[i] == r[j] {
        TwiceCounted(r, i, j);
      }
    }
  }

  /** A value at two positions of a sequence occurs in it at least twice. */
  lemma TwiceCounted(s: seq<nat>, i: nat, j: nat)
    requires i < j < |s| && s[i] == s[j]
    ensures multiset(s)[s[i]] >= 2
  {
    assert s == s[..i] + [s[i]] + s[i + 1..j] + [s[j]] + s[j + 1..];
  }

  /** The places of the selected rows, in selection order. */
  function Pick(cands: seq<Candidate>, rows: seq<nat>): (places: seq<Place>)
    requires ValidRoute(rows, |cands|)
    ensures |places| == |rows| && forall k :: 0 <= k < |rows| ==> places[k] == cands[rows[k]].place
  {
    seq(|rows|, k requires 0 <= k < |rows| => cands[rows[k]].place)
  }
}
