/**
 * `RouteOptimizer`: orders the chosen stops by a greedy nearest-neighbour tour from the
 * origin, then runs a capped "2-opt" pass, then annotates each stop with the leg from the
 * previous position and the distance covered so far.
 *
 * Candidates are the positions 0..n-1 of the candidate table `pts`; a route is a sequence
 * of such positions. The order in which the Python set of unvisited indices is iterated
 * is a parameter `SetOrder`: it decides which of several equally near places is taken.
 *
 * The 2-opt acceptance test comes in two accountings. `AsWritten` is the source's test: it
 * compares only some of the edges a reversal changes, so it can accept moves that lengthen
 * the route (see `AsWrittenLengthensExample`). `Intended` compares the edges a reversal
 * removes with those it adds and is proved never to lengthen the route. The optimiser is
 * parameterised by the accounting; `AsWritten` reproduces the source.
 */
module RouteOptimizer {
  import opened Numeric
  import opened Seqs
  import opened Results
  import opened GeoUtils

  /** One entry of an optimised route: `(index, distance_from_prev, distance_from_start)`. */
  datatype RouteLeg = RouteLeg(index: nat, fromPrev: real, fromStart: real)

  /** `max_iterations` of `_two_opt_improvement`. */
  const MaxIterations: nat := 100

  /** Every stop of `route` is a row of a table with `n` rows. */
  predicate ValidRoute(route: seq<nat>, n: nat)
  {
    forall k :: 0 <= k < |route| ==> route[k] < n
  }

  lemma ValidSlice(route: seq<nat>, n: nat, a: nat, b: nat)
    requires ValidRoute(route, n) && a <= b <= |route|
    ensures ValidRoute(route[a..b], n)
  {
    forall k | 0 <= k < b - a ensures route[a..b][k] < n {
      assert route[a..b][k] == route[a + k];
    }
  }

  /** A reordering of a valid route is valid. */
  lemma ValidPermutation(a: seq<nat>, b: seq<nat>, n: nat)
    requires ValidRoute(b, n) && multiset(a) == multiset(b)
    ensures ValidRoute(a, n)
  {
    forall k | 0 <= k < |a| ensures a[k] < n {
      assert a[k] in multiset(b);
      var m :| 0 <= m < |b| && b[m] == a[k];
    }
  }

  /** The positions 0..n-1 in increasing order. */
  function Range(n: nat): (r: seq<nat>)
    ensures |r| == n
    ensures forall k :: 0 <= k < n ==> r[k] == k
  {
    seq(n, k requires 0 <= k < n => k as nat)
  }

  /** `s` lists each of the positions 0..n-1 exactly once. */
  predicate IsOrdering(s: seq<nat>, n: nat)
  {
    multiset(s) == multiset(Range(n))
  }

  /**
   * The order in which `for idx in unvisited` meets the `n` places of `set(places_df.index)`,
   * as positions 0..n-1. CPython iterates a set by the hash-table slots of its elements, and
   * the elements are the table's index labels, which the model does not carry, so the order
   * is a parameter that is only known to list every position once. Removing an element
   * leaves the others in their slots, so later scans meet the places left in the same order.
   */
  type SetOrder = order: nat -> seq<nat> | forall n: nat :: IsOrdering(order(n), n) witness Range

  /** Where `x` comes in `scan`: its first position, or `|scan|` when it does not occur. */
  function ScanIndex(scan: seq<nat>, x: nat): (i: nat)
    ensures i <= |scan|
    ensures i < |scan| ==> scan[i] == x
  {
    if scan == [] then 0 else if scan[0] == x then 0 else 1 + ScanIndex(scan[1..], x)
  }

  /** The stops of `s` come in the order in which `scan` meets them. */
  predicate InScanOrder(s: seq<nat>, scan: seq<nat>)
  {
    forall a, b :: 0 <= a < b < |s| ==> ScanIndex(scan, s[a]) < ScanIndex(scan, s[b])
  }

  predicate Distinct(s: seq<nat>)
  {
    forall a, b :: 0 <= a < b < |s| ==> s[a] != s[b]
  }

  /** In a sequence without repeats, the element at `a` is met at `a`. */
  lemma {:induction false} ScanIndexOfDistinct(s: seq<nat>, a: nat)
    requires Distinct(s) && a < |s|
    ensures ScanIndex(s, s[a]) == a
  {
    if a > 0 {
      assert s[0] != s[a];
      assert s[1..][a - 1] == s[a];
      ScanIndexOfDistinct(s[1..], a - 1);
    }
  }

  /** An element found at two places is counted at least twice. */
  lemma RepeatCountsTwice(s: seq<nat>, a: nat, b: nat)
    requires a < b < |s|
    ensures s[a] == s[b] ==> multiset(s)[s[a]] >= 2
  {
    var front, back := s[..b], s[b..];
    assert s == front + back;
    assert s[a] in multiset(front) && s[b] in multiset(back);
  }

  /** An ordering of 0..n-1 has length n, valid stops, no repeats, and meets its stops in its own order. */
  lemma OrderingFacts(s: seq<nat>, n: nat)
    requires IsOrdering(s, n)
    ensures |s| == n && ValidRoute(s, n) && Distinct(s) && InScanOrder(s, s)
    ensures forall x: nat :: multiset(s)[x] == if x < n then 1 else 0
  {
    RangeCounts(n);
    assert |s| == |multiset(s)| == |multiset(Range(n))| == n;
    ValidPermutation(s, Range(n), n);
    forall a, b | 0 <= a < b < |s| ensures s[a] != s[b] {
      RepeatCountsTwice(s, a, b);
    }
    forall a, b | 0 <= a < b < |s| ensures ScanIndex(s, s[a]) < ScanIndex(s, s[b]) {
      ScanIndexOfDistinct(s, a);
      ScanIndexOfDistinct(s, b);
    }
  }

  /** The coordinates of the stops of `route`, in order. */
  function Stops(pts: seq<Coord>, route: seq<nat>): (r: seq<Coord>)
    requires ValidRoute(route, |pts|)
    ensures |r| == |route|
    ensures forall k :: 0 <= k < |route| ==> r[k] == pts[route[k]]
  {
    seq(|route|, k requires 0 <= k < |route| => pts[route[k]])
  }

  /** Length of the tour that starts at `origin` and visits the stops of `route` in order. */
  function RouteLength(dist: Haversine, origin: Coord, pts: seq<Coord>, route: seq<nat>): (r: real)
    requires ValidRoute(route, |pts|)
    ensures r >= 0.0
  {
    PathLength(dist, [origin] + Stops(pts, route))
  }

  /** Where the traveller stands before visiting stop `t`: the origin, then each stop in turn. */
  function Current(origin: Coord, pts: seq<Coord>, route: seq<nat>, t: nat): Coord
    requires ValidRoute(route, |pts|) && t <= |route|
  {
    if t == 0 then origin else pts[route[t - 1]]
  }

  /** Extending a route by one stop adds the leg from the current position to that stop. */
  lemma RouteLengthExtend(dist: Haversine, origin: Coord, pts: seq<Coord>, route: seq<nat>, k: nat)
    requires ValidRoute(route, |pts|) && k < |route|
    ensures ValidRoute(route[..k], |pts|) && ValidRoute(route[..k + 1], |pts|)
    ensures RouteLength(dist, origin, pts, route[..k + 1])
         == RouteLength(dist, origin, pts, route[..k]) + dist(Current(origin, pts, route, k), pts[route[k]])
  {
    ValidSlice(route, |pts|, 0, k);
    ValidSlice(route, |pts|, 0, k + 1);
    var a := [origin] + Stops(pts, route[..k]);
    assert [origin] + Stops(pts, route[..k + 1]) == a + [pts[route[k]]];
    PathLengthConcat(dist, a, [pts[route[k]]]);
    assert a[|a| - 1] == Current(origin, pts, route, k);
  }

  // ---------------------------------------------------------------- nearest neighbour

  /**
   * The position in `cand` of the candidate nearest to `from`; on a tie the first one met,
   * because the scan replaces its best only on a strictly smaller distance.
   */
  function FirstNearest(dist: Haversine, from: Coord, pts: seq<Coord>, cand: seq<nat>): (k: nat)
    requires |cand| > 0 && ValidRoute(cand, |pts|)
    ensures k < |cand|
    ensures forall m :: 0 <= m < |cand| ==> dist(from, pts[cand[k]]) <= dist(from, pts[cand[m]])
    ensures forall m :: 0 <= m < k ==> dist(from, pts[cand[k]]) < dist(from, pts[cand[m]])
  {
    if |cand| == 1 then 0
    else
      ValidSlice(cand, |pts|, 0, |cand| - 1);
      var k := FirstNearest(dist, from, pts, cand[..|cand| - 1]);
      if dist(from, pts[cand[|cand| - 1]]) < dist(from, pts[cand[k]]) then |cand| - 1 else k
  }

  /** The scan over one more candidate keeps its best unless the new one is strictly nearer. */
  lemma FirstNearestExtend(dist: Haversine, from: Coord, pts: seq<Coord>, cand: seq<nat>, p: nat)
    requires ValidRoute(cand, |pts|) && p < |cand|
    ensures ValidRoute(cand[..p], |pts|) && ValidRoute(cand[..p + 1], |pts|)
    ensures p == 0 ==> FirstNearest(dist, from, pts, cand[..p + 1]) == 0
    ensures p > 0 ==>
      var k := FirstNearest(dist, from, pts, cand[..p]);
      FirstNearest(dist, from, pts, cand[..p + 1]) == if dist(from, pts[cand[p]]) < dist(from, pts[cand[k]]) then p else k
  {
    ValidSlice(cand, |pts|, 0, p);
    ValidSlice(cand, |pts|, 0, p + 1);
    assert cand[..p + 1][..p] == cand[..p];
  }

  /** `unvisited.remove(idx)`: the candidates without the one at position `k`, order kept. */
  function RemoveAt(s: seq<nat>, k: nat): (r: seq<nat>)
    requires k < |s|
    ensures |r| == |s| - 1
  {
    s[..k] + s[k + 1..]
  }

  /** Exactly the removed candidate is gone. */
  lemma RemoveAtMultiset(s: seq<nat>, k: nat)
    requires k < |s|
    ensures multiset(RemoveAt(s, k)) == multiset(s) - multiset{s[k]}
  {
    assert s == s[..k] + [s[k]] + s[k + 1..];
  }

  /** The candidates before position `k` keep their positions; those after it move up by one. */
  lemma RemoveAtIndex(s: seq<nat>, k: nat)
    requires k < |s|
    ensures forall m :: 0 <= m < |s| - 1 ==> RemoveAt(s, k)[m] == if m < k then s[m] else s[m + 1]
  {
    var a, b := s[..k], s[k + 1..];
    assert RemoveAt(s, k) == a + b;
    forall m | 0 <= m < |s| - 1 ensures (a + b)[m] == if m < k then s[m] else s[m + 1] {
      if m >= k {
        assert (a + b)[m] == b[m - k];
      }
    }
  }

  lemma RemoveAtKeeps(s: seq<nat>, k: nat, n: nat)
    requires k < |s| && ValidRoute(s, n)
    ensures ValidRoute(RemoveAt(s, k), n)
  {
    RemoveAtIndex(s, k);
  }

  /** Removing a candidate keeps the others in the order the scan meets them. */
  lemma RemoveAtInScanOrder(s: seq<nat>, k: nat, scan: seq<nat>)
    requires k < |s| && InScanOrder(s, scan)
    ensures InScanOrder(RemoveAt(s, k), scan)
  {
    RemoveAtIndex(s, k);
  }

  /** The greedy tour from `current` through every candidate of `unvisited`. */
  function NearestNeighborFrom(dist: Haversine, pts: seq<Coord>, current: Coord, unvisited: seq<nat>): (route: seq<nat>)
    requires ValidRoute(unvisited, |pts|)
    ensures |route| == |unvisited|
    decreases |unvisited|
  {
    if unvisited == [] then []
    else
      var k := FirstNearest(dist, current, pts, unvisited);
      RemoveAtKeeps(unvisited, k, |pts|);
      [unvisited[k]] + NearestNeighborFrom(dist, pts, pts[unvisited[k]], RemoveAt(unvisited, k))
  }

  /** The greedy tour from any position visits each unvisited candidate exactly once. */
  lemma NearestNeighborFromPermutes(dist: Haversine, pts: seq<Coord>, current: Coord, unvisited: seq<nat>)
    requires ValidRoute(unvisited, |pts|)
    ensures multiset(NearestNeighborFrom(dist, pts, current, unvisited)) == multiset(unvisited)
    decreases |unvisited|
  {
    if unvisited != [] {
      var k := FirstNearest(dist, current, pts, unvisited);
      RemoveAtKeeps(unvisited, k, |pts|);
      RemoveAtMultiset(unvisited, k);
      NearestNeighborFromPermutes(dist, pts, pts[unvisited[k]], RemoveAt(unvisited, k));
    }
  }

  /** `_nearest_neighbor`: the greedy tour from the origin through every candidate, scanned in `setOrder`. */
  function NearestNeighborOrder(dist: Haversine, setOrder: SetOrder, origin: Coord, pts: seq<Coord>): (route: seq<nat>)
    ensures |route| == |pts|
  {
    OrderingFacts(setOrder(|pts|), |pts|);
    NearestNeighborFrom(dist, pts, origin, setOrder(|pts|))
  }

  /** Each of 0..n-1 occurs once in `Range(n)`, and nothing else occurs. */
  lemma {:induction false} RangeCounts(n: nat)
    ensures forall x: nat :: multiset(Range(n))[x] == if x < n then 1 else 0
  {
    if n > 0 {
      RangeCounts(n - 1);
      assert Range(n) == Range(n - 1) + [n - 1];
    } else {
      assert Range(n) == [];
    }
  }

  /** The greedy tour visits every candidate exactly once, whatever order the set is scanned in. */
  lemma NearestNeighborIsPermutation(dist: Haversine, setOrder: SetOrder, origin: Coord, pts: seq<Coord>)
    ensures |NearestNeighborOrder(dist, setOrder, origin, pts)| == |pts|
    ensures ValidRoute(NearestNeighborOrder(dist, setOrder, origin, pts), |pts|)
    ensures forall x: nat :: multiset(NearestNeighborOrder(dist, setOrder, origin, pts))[x] == if x < |pts| then 1 else 0
  {
    var r := NearestNeighborOrder(dist, setOrder, origin, pts);
    var all := setOrder(|pts|);
    OrderingFacts(all, |pts|);
    NearestNeighborFromPermutes(dist, pts, origin, all);
    ValidPermutation(r, all, |pts|);
  }

  /**
   * Stop `t` of `r`, seen from `from`, is no farther than every later stop, and strictly
   * nearer than every later stop that `scan` meets before it.
   */
  predicate GreedyAt(dist: Haversine, pts: seq<Coord>, scan: seq<nat>, from: Coord, r: seq<nat>, t: nat)
    requires ValidRoute(r, |pts|) && t < |r|
  {
    forall u :: t < u < |r| ==>
      && dist(from, pts[r[t]]) <= dist(from, pts[r[u]])
      && (ScanIndex(scan, r[u]) < ScanIndex(scan, r[t]) ==> dist(from, pts[r[t]]) < dist(from, pts[r[u]]))
  }

  /** The candidate picked first is no farther than any candidate left, and strictly nearer than those scanned before it. */
  lemma NearestBeatsRest(dist: Haversine, pts: seq<Coord>, scan: seq<nat>, current: Coord, unvisited: seq<nat>, x: nat)
    requires ValidRoute(unvisited, |pts|) && InScanOrder(unvisited, scan) && |unvisited| > 0
    requires x in multiset(RemoveAt(unvisited, FirstNearest(dist, current, pts, unvisited)))
    ensures x < |pts|
    ensures var w := unvisited[FirstNearest(dist, current, pts, unvisited)];
      && dist(current, pts[w]) <= dist(current, pts[x])
      && (ScanIndex(scan, x) < ScanIndex(scan, w) ==> dist(current, pts[w]) < dist(current, pts[x]))
  {
    var k := FirstNearest(dist, current, pts, unvisited);
    var rest := RemoveAt(unvisited, k);
    var m :| 0 <= m < |rest| && rest[m] == x;
    RemoveAtIndex(unvisited, k);
    var m' := if m < k then m else m + 1;
    assert unvisited[m'] == x && m' != k;
    if k < m' {
      assert ScanIndex(scan, unvisited[k]) < ScanIndex(scan, unvisited[m']);
    }
  }

  lemma GreedyFirstPick(dist: Haversine, pts: seq<Coord>, scan: seq<nat>, current: Coord, unvisited: seq<nat>)
    requires ValidRoute(unvisited, |pts|) && InScanOrder(unvisited, scan) && |unvisited| > 0
    ensures var r := NearestNeighborFrom(dist, pts, current, unvisited);
      ValidRoute(r, |pts|) && |r| == |unvisited| && GreedyAt(dist, pts, scan, current, r, 0)
  {
    var r := NearestNeighborFrom(dist, pts, current, unvisited);
    var k := FirstNearest(dist, current, pts, unvisited);
    RemoveAtKeeps(unvisited, k, |pts|);
    var rest := RemoveAt(unvisited, k);
    var tail := NearestNeighborFrom(dist, pts, pts[unvisited[k]], rest);
    assert r == [unvisited[k]] + tail;
    NearestNeighborFromPermutes(dist, pts, current, unvisited);
    NearestNeighborFromPermutes(dist, pts, pts[unvisited[k]], rest);
    ValidPermutation(r, unvisited, |pts|);
    forall u | 0 < u < |r|
      ensures dist(current, pts[r[0]]) <= dist(current, pts[r[u]])
      ensures ScanIndex(scan, r[u]) < ScanIndex(scan, r[0]) ==> dist(current, pts[r[0]]) < dist(current, pts[r[u]])
    {
      assert r[u] == tail[u - 1];
      assert r[u] in multiset(rest);
      NearestBeatsRest(dist, pts, scan, current, unvisited, r[u]);
    }
  }

  lemma GreedyShift(dist: Haversine, pts: seq<Coord>, scan: seq<nat>, from: Coord, head: nat, tail: seq<nat>, t: nat)
    requires ValidRoute([head] + tail, |pts|) && 0 < t <= |tail|
    requires ValidRoute(tail, |pts|) && GreedyAt(dist, pts, scan, from, tail, t - 1)
    ensures GreedyAt(dist, pts, scan, from, [head] + tail, t)
  {
    var r := [head] + tail;
    forall u | t < u < |r|
      ensures dist(from, pts[r[t]]) <= dist(from, pts[r[u]])
      ensures ScanIndex(scan, r[u]) < ScanIndex(scan, r[t]) ==> dist(from, pts[r[t]]) < dist(from, pts[r[u]])
    {
      assert r[u] == tail[u - 1] && r[t] == tail[t - 1];
    }
  }

  lemma {:induction false} NearestNeighborFromGreedy(dist: Haversine, pts: seq<Coord>, scan: seq<nat>, current: Coord, unvisited: seq<nat>, t: nat)
    requires ValidRoute(unvisited, |pts|) && InScanOrder(unvisited, scan)
    requires t < |unvisited|
    ensures var r := NearestNeighborFrom(dist, pts, current, unvisited);
      ValidRoute(r, |pts|) && |r| == |unvisited| && GreedyAt(dist, pts, scan, Current(current, pts, r, t), r, t)
    decreases |unvisited|
  {
    GreedyFirstPick(dist, pts, scan, current, unvisited);
    if t > 0 {
      var r := NearestNeighborFrom(dist, pts, current, unvisited);
      var k := FirstNearest(dist, current, pts, unvisited);
      RemoveAtKeeps(unvisited, k, |pts|);
      RemoveAtInScanOrder(unvisited, k, scan);
      var rest := RemoveAt(unvisited, k);
      var next := pts[unvisited[k]];
      var tail := NearestNeighborFrom(dist, pts, next, rest);
      assert r == [unvisited[k]] + tail;
      NearestNeighborFromGreedy(dist, pts, scan, next, rest, t - 1);
      var from := Current(current, pts, r, t);
      assert from == Current(next, pts, tail, t - 1) by {
        if t > 1 {
          assert r[t - 1] == tail[t - 2];
        }
      }
      GreedyShift(dist, pts, scan, from, unvisited[k], tail, t);
    }
  }

  /**
   * Each nearest-neighbour step appends a stop no farther from the current position than any
   * stop still unvisited, and strictly nearer than every unvisited stop the set scan meets
   * before it: the scan keeps the first of several equally near places.
   */
  lemma NearestNeighborGreedy(dist: Haversine, setOrder: SetOrder, origin: Coord, pts: seq<Coord>, t: nat)
    requires t < |pts|
    ensures var r := NearestNeighborOrder(dist, setOrder, origin, pts);
      ValidRoute(r, |pts|) && |r| == |pts| && GreedyAt(dist, pts, setOrder(|pts|), Current(origin, pts, r, t), r, t)
  {
    var scan := setOrder(|pts|);
    OrderingFacts(scan, |pts|);
    NearestNeighborFromGreedy(dist, pts, scan, origin, scan, t);
  }

  /** One step of the greedy tour: the first nearest candidate, then the tour from there through the rest. */
  lemma NearestNeighborStep(dist: Haversine, pts: seq<Coord>, current: Coord, unvisited: seq<nat>)
    requires ValidRoute(unvisited, |pts|) && unvisited != []
    ensures var k := FirstNearest(dist, current, pts, unvisited);
      && ValidRoute(RemoveAt(unvisited, k), |pts|)
      && NearestNeighborFrom(dist, pts, current, unvisited)
         == [unvisited[k]] + NearestNeighborFrom(dist, pts, pts[unvisited[k]], RemoveAt(unvisited, k))
  {
    RemoveAtKeeps(unvisited, FirstNearest(dist, current, pts, unvisited), |pts|);
  }

  /** The inner `for idx in unvisited` scan: keeps the first candidate at the smallest distance. */
  method ScanNearest(dist: Haversine, current: Coord, pts: seq<Coord>, unvisited: seq<nat>) returns (k: nat)
    requires ValidRoute(unvisited, |pts|) && unvisited != []
    ensures k == FirstNearest(dist, current, pts, unvisited)
  {
    var nearest: Option<nat> := None;
    var nearestDist := 0.0;
    var p := 0;
    while p < |unvisited|
      invariant 0 <= p <= |unvisited|
      invariant ValidRoute(unvisited[..p], |pts|)
      invariant p == 0 <==> nearest.None?
      invariant p > 0 ==> nearest == Some(FirstNearest(dist, current, pts, unvisited[..p]))
      invariant p > 0 ==> nearestDist == dist(current, pts[unvisited[nearest.value]])
    {
      FirstNearestExtend(dist, current, pts, unvisited, p);
      var d := dist(current, pts[unvisited[p]]);
      if nearest.None? || d < nearestDist {
        nearest := Some(p);
        nearestDist := d;
      }
      p := p + 1;
    }
    assert unvisited[..p] == unvisited;
    k := nearest.value;
  }

  /** `_nearest_neighbor`, as the loop that scans the unvisited set and moves to the nearest place. */
  method NearestNeighbor(dist: Haversine, setOrder: SetOrder, origin: Coord, pts: seq<Coord>) returns (route: seq<nat>)
    ensures route == NearestNeighborOrder(dist, setOrder, origin, pts)
  {
    var unvisited := setOrder(|pts|);
    OrderingFacts(unvisited, |pts|);
    route := [];
    var current := origin;
    while unvisited != []
      invariant ValidRoute(unvisited, |pts|)
      invariant route + NearestNeighborFrom(dist, pts, current, unvisited) == NearestNeighborOrder(dist, setOrder, origin, pts)
      decreases |unvisited|
    {
      var k := ScanNearest(dist, current, pts, unvisited);
      NearestNeighborStep(dist, pts, current, unvisited);
      ConcatAssoc(route, [unvisited[k]], NearestNeighborFrom(dist, pts, pts[unvisited[k]], RemoveAt(unvisited, k)));
      route := route + [unvisited[k]];
      current := pts[unvisited[k]];
      unvisited := RemoveAt(unvisited, k);
    }
  }

  /** A candidate strictly nearer than every other one is the one the scan keeps, wherever the scan meets it. */
  lemma UniqueNearestPicked(dist: Haversine, from: Coord, pts: seq<Coord>, cand: seq<nat>, w: nat)
    requires ValidRoute(cand, |pts|) && w < |pts| && w in cand
    requires forall m :: 0 <= m < |cand| && cand[m] != w ==> dist(from, pts[w]) < dist(from, pts[cand[m]])
    ensures cand[FirstNearest(dist, from, pts, cand)] == w
  {
    var k := FirstNearest(dist, from, pts, cand);
    var m :| 0 <= m < |cand| && cand[m] == w;
    assert dist(from, pts[cand[k]]) <= dist(from, pts[cand[m]]);
  }

  /** Every element of `u` is one of those the multiset lists. */
  lemma ElementsOf(u: seq<nat>, m: nat)
    requires m < |u|
    ensures u[m] in multiset(u)
  {
  }

  /** Of the candidates of `u`, the scan keeps `w` when it is strictly nearer than all the others. */
  lemma PickStrictlyNearest(dist: Haversine, from: Coord, pts: seq<Coord>, u: seq<nat>, w: nat) returns (k: nat)
    requires ValidRoute(u, |pts|) && w < |pts| && w in multiset(u)
    requires forall x :: x in multiset(u) && x != w ==> x < |pts| && dist(from, pts[w]) < dist(from, pts[x])
    ensures k == FirstNearest(dist, from, pts, u) && u[k] == w
  {
    k := FirstNearest(dist, from, pts, u);
    forall m | 0 <= m < |u| && u[m] != w ensures dist(from, pts[w]) < dist(from, pts[u[m]]) {
      ElementsOf(u, m);
    }
    UniqueNearestPicked(dist, from, pts, u, w);
  }

  /** A single candidate left is visited next. */
  lemma OneCandidateTour(dist: Haversine, pts: seq<Coord>, from: Coord, u: seq<nat>, x: nat)
    requires multiset(u) == multiset{x} && x < |pts|
    ensures u == [x] && NearestNeighborFrom(dist, pts, from, u) == [x]
  {
    assert |u| == |multiset(u)| == 1;
    ElementsOf(u, 0);
    assert RemoveAt(u, 0) == [];
    NearestNeighborStep(dist, pts, from, u);
  }

  /** Of two candidates the strictly nearer `w` is visited first, then `x`, whichever the scan meets first. */
  lemma TwoCandidateTour(dist: Haversine, pts: seq<Coord>, from: Coord, u: seq<nat>, w: nat, x: nat)
    requires multiset(u) == multiset{w, x} && w < |pts| && x < |pts|
    requires dist(from, pts[w]) < dist(from, pts[x])
    ensures ValidRoute(u, |pts|) && NearestNeighborFrom(dist, pts, from, u) == [w, x]
  {
    var k := PickOfTwo(dist, pts, from, u, w, x);
    OneCandidateTour(dist, pts, pts[w], RemoveAt(u, k), x);
    NearestNeighborStep(dist, pts, from, u);
  }

  /** Besides `w`, the multiset of `w` and `x` holds `x`. */
  lemma OtherOfTwo(z: nat, w: nat, x: nat)
    ensures z in multiset{w, x} && z != w ==> z == x
    ensures multiset{w, x} - multiset{w} == multiset{x}
  {
  }

  /** Of two candidates the scan keeps `w`, strictly nearer to `from`, and leaves the other. */
  lemma PickOfTwo(dist: Haversine, pts: seq<Coord>, from: Coord, u: seq<nat>, w: nat, x: nat) returns (k: nat)
    requires multiset(u) == multiset{w, x} && w < |pts| && x < |pts|
    requires dist(from, pts[w]) < dist(from, pts[x])
    ensures ValidRoute(u, |pts|) && k == FirstNearest(dist, from, pts, u) && u[k] == w
    ensures multiset(RemoveAt(u, k)) == multiset{x}
  {
    ValidPermutation(u, [w, x], |pts|);
    forall z | z in multiset(u) && z != w ensures z < |pts| && dist(from, pts[w]) < dist(from, pts[z]) {
      OtherOfTwo(z, w, x);
    }
    k := PickStrictlyNearest(dist, from, pts, u, w);
    RemoveAtMultiset(u, k);
    OtherOfTwo(w, w, x);
  }

  /** Besides `w`, the multiset of `w`, `x` and `y` holds `x` and `y`. */
  lemma OthersOfThree(z: nat, w: nat, x: nat, y: nat)
    ensures z in multiset{w, x, y} && z != w ==> z == x || z == y
    ensures multiset{w, x, y} - multiset{w} == multiset{x, y}
  {
  }

  /** Of three candidates the scan keeps `w`, strictly nearest to `from`, and leaves the other two. */
  lemma PickOfThree(dist: Haversine, pts: seq<Coord>, from: Coord, u: seq<nat>, w: nat, x: nat, y: nat) returns (k: nat)
    requires multiset(u) == multiset{w, x, y} && w < |pts| && x < |pts| && y < |pts|
    requires dist(from, pts[w]) < dist(from, pts[x]) && dist(from, pts[w]) < dist(from, pts[y])
    ensures ValidRoute(u, |pts|) && k == FirstNearest(dist, from, pts, u) && u[k] == w
    ensures multiset(RemoveAt(u, k)) == multiset{x, y}
  {
    ValidPermutation(u, [w, x, y], |pts|);
    forall z | z in multiset(u) && z != w ensures z < |pts| && dist(from, pts[w]) < dist(from, pts[z]) {
      OthersOfThree(z, w, x, y);
    }
    k := PickStrictlyNearest(dist, from, pts, u, w);
    RemoveAtMultiset(u, k);
    OthersOfThree(w, w, x, y);
  }

  /**
   * Of three candidates, `w` strictly nearest to `from` and `x` strictly nearer to `w` than
   * `y`: the tour is `w`, `x`, `y`, whatever order the scan meets them in.
   */
  lemma ThreeCandidateTour(dist: Haversine, pts: seq<Coord>, from: Coord, u: seq<nat>, w: nat, x: nat, y: nat)
    requires multiset(u) == multiset{w, x, y} && w < |pts| && x < |pts| && y < |pts|
    requires dist(from, pts[w]) < dist(from, pts[x]) && dist(from, pts[w]) < dist(from, pts[y])
    requires dist(pts[w], pts[x]) < dist(pts[w], pts[y])
    ensures ValidRoute(u, |pts|) && NearestNeighborFrom(dist, pts, from, u) == [w, x, y]
  {
    var k := PickOfThree(dist, pts, from, u, w, x, y);
    TwoCandidateTour(dist, pts, pts[w], RemoveAt(u, k), x, y);
    NearestNeighborStep(dist, pts, from, u);
  }

  // ---------------------------------------------------------------- 2-opt

  /** The route with the stops at positions i+1..j in reverse order (see `ReverseSegmentSlices`). */
  function ReverseSegment(route: seq<nat>, i: nat, j: nat): (r: seq<nat>)
    requires i < j < |route|
    ensures |r| == |route|
  {
    seq(|route|, k requires 0 <= k < |route| => if i < k <= j then route[i + 1 + j - k] else route[k])
  }

  /** Position k of the reversed route: positions i+1..j mirrored, every other position unchanged. */
  lemma ReverseSegmentIndex(route: seq<nat>, i: nat, j: nat)
    requires i < j < |route|
    ensures forall k :: 0 <= k < |route| ==>
      ReverseSegment(route, i, j)[k] == if i < k <= j then route[i + 1 + j - k] else route[k]
  {
  }

  /** The reversal is the source's `route[:i+1] + route[i+1:j+1][::-1] + route[j+1:]`. */
  lemma ReverseSegmentSlices(route: seq<nat>, i: nat, j: nat)
    requires i < j < |route|
    ensures ReverseSegment(route, i, j) == route[..i + 1] + Reversed(route[i + 1..j + 1]) + route[j + 1..]
  {
    var r := ReverseSegment(route, i, j);
    ReverseSegmentIndex(route, i, j);
    var a, b, c := route[..i + 1], route[i + 1..j + 1], route[j + 1..];
    var rb := Reversed(b);
    var ab := a + rb;
    var s := ab + c;
    assert |ab| == j + 1;
    forall k | 0 <= k < |route| ensures r[k] == s[k] {
      if k <= i {
        assert s[k] == ab[k] == a[k] == route[k] == r[k];
      } else if k <= j {
        assert s[k] == ab[k] == rb[k - i - 1];
        assert rb[k - i - 1] == b[j - k] == route[i + 1 + j - k] == r[k];
      } else {
        assert s[k] == c[k - j - 1] == route[k] == r[k];
      }
    }
  }

  /** So the reversal only reorders the stops. */
  lemma ReverseSegmentPermutes(route: seq<nat>, i: nat, j: nat)
    requires i < j < |route|
    ensures multiset(ReverseSegment(route, i, j)) == multiset(route)
  {
    ReverseSegmentSlices(route, i, j);
    SlicesPermute(route[..i + 1], route[i + 1..j + 1], route[j + 1..]);
    assert route == route[..i + 1] + route[i + 1..j + 1] + route[j + 1..];
  }

  /** Reversing the middle of three parts keeps the multiset of their concatenation. */
  lemma SlicesPermute(a: seq<nat>, b: seq<nat>, c: seq<nat>)
    ensures multiset(a + Reversed(b) + c) == multiset(a + b + c)
  {
    var rb := Reversed(b);
    assert multiset(rb) == multiset(b);
    assert multiset(a + b + c) == multiset(a + b) + multiset(c) == multiset(a) + multiset(b) + multiset(c);
    assert multiset(a + rb + c) == multiset(a + rb) + multiset(c) == multiset(a) + multiset(rb) + multiset(c);
  }

  /** The reversal only reorders the stops, so it keeps a route valid. */
  lemma ReverseSegmentValid(route: seq<nat>, i: nat, j: nat, n: nat)
    requires i < j < |route| && ValidRoute(route, n)
    ensures ValidRoute(ReverseSegment(route, i, j), n)
  {
    ReverseSegmentPermutes(route, i, j);
    ValidPermutation(ReverseSegment(route, i, j), route, n);
  }

  /** A 2-opt move: reverse the stops at positions i+1..j. */
  datatype Move = Move(i: nat, j: nat)

  /** The moves the nested loops try: `i` in `range(len(route) - 1)`, `j` in `range(i + 2, len(route))`. */
  predicate ValidMove(route: seq<nat>, i: nat, j: nat)
  {
    i + 2 <= j < |route|
  }

  /** `_calculate_segment_distance`: the edges into stop i and out of stop j, or into and out of stop i at the tail. */
  function SegmentDistance(dist: Haversine, origin: Coord, pts: seq<Coord>, route: seq<nat>, i: nat, j: nat): (d: real)
    requires ValidRoute(route, |pts|) && i < j < |route|
    ensures d >= 0.0
    ensures j + 1 < |route| ==>
      d == dist(Current(origin, pts, route, i), pts[route[i]]) + dist(Current(origin, pts, route, j + 1), pts[route[j + 1]])
    ensures j + 1 == |route| ==>
      d == dist(Current(origin, pts, route, i), pts[route[i]]) + dist(pts[route[i]], pts[route[j]])
  {
    var p1 := if i == 0 then origin else pts[route[i - 1]];
    var p2 := pts[route[i]];
    var p3 := pts[route[j]];
    if j + 1 < |route| then dist(p1, p2) + dist(p3, pts[route[j + 1]])
    else dist(p1, p2) + dist(p2, p3)
  }

  /**
   * `_calculate_segment_distance` of the reversed route, read off the current route: after
   * the reversal, positions i-1, i and j+1 hold the same stops and position j holds route[i+1].
   */
  function ReversedSegmentDistance(dist: Haversine, origin: Coord, pts: seq<Coord>, route: seq<nat>, i: nat, j: nat): (d: real)
    requires ValidRoute(route, |pts|) && ValidMove(route, i, j)
    ensures d >= 0.0
    ensures j + 1 < |route| ==>
      d == dist(Current(origin, pts, route, i), pts[route[i]]) + dist(pts[route[i + 1]], pts[route[j + 1]])
  {
    var p1 := if i == 0 then origin else pts[route[i - 1]];
    var p2 := pts[route[i]];
    var p3 := pts[route[i + 1]];
    if j + 1 < |route| then dist(p1, p2) + dist(p3, pts[route[j + 1]])
    else dist(p1, p2) + dist(p2, p3)
  }

  /** `new_dist` in the source: the segment distance computed on `new_route`. */
  lemma ReversedSegmentDistanceIsLiteral(dist: Haversine, origin: Coord, pts: seq<Coord>, route: seq<nat>, i: nat, j: nat)
    requires ValidRoute(route, |pts|) && ValidMove(route, i, j)
    ensures ValidRoute(ReverseSegment(route, i, j), |pts|)
    ensures SegmentDistance(dist, origin, pts, ReverseSegment(route, i, j), i, j) == ReversedSegmentDistance(dist, origin, pts, route, i, j)
  {
    var r := ReverseSegment(route, i, j);
    ReverseSegmentIndex(route, i, j);
    ReverseSegmentValid(route, i, j, |pts|);
    assert r[i] == route[i] && r[j] == route[i + 1];
    assert i > 0 ==> r[i - 1] == route[i - 1];
    assert j + 1 < |route| ==> r[j + 1] == route[j + 1];
  }

  /** Which edges the acceptance test compares: the code's, or the two edges a reversal actually replaces. */
  datatype Accounting = AsWritten | Intended

  /**
   * The edges a reversal of positions i+1..j removes: route[i]->route[i+1] and, unless j is
   * the last position, route[j]->route[j+1].
   */
  function RemovedEdges(dist: Haversine, pts: seq<Coord>, route: seq<nat>, i: nat, j: nat): real
    requires ValidRoute(route, |pts|) && ValidMove(route, i, j)
  {
    var a, b, c := pts[route[i]], pts[route[i + 1]], pts[route[j]];
    if j + 1 < |route| then dist(a, b) + dist(c, pts[route[j + 1]]) else dist(a, b)
  }

  /** The edges it puts in their place: route[i]->route[j] and, unless j is last, route[i+1]->route[j+1]. */
  function AddedEdges(dist: Haversine, pts: seq<Coord>, route: seq<nat>, i: nat, j: nat): real
    requires ValidRoute(route, |pts|) && ValidMove(route, i, j)
  {
    var a, b, c := pts[route[i]], pts[route[i + 1]], pts[route[j]];
    if j + 1 < |route| then dist(a, c) + dist(b, pts[route[j + 1]]) else dist(a, c)
  }

  /** The acceptance test: `new_dist < current_dist` as written, or "the new edges are shorter" as intended. */
  predicate Improves(acc: Accounting, dist: Haversine, origin: Coord, pts: seq<Coord>, route: seq<nat>, i: nat, j: nat)
    requires ValidRoute(route, |pts|) && ValidMove(route, i, j)
  {
    match acc
    case AsWritten =>
      ReversedSegmentDistance(dist, origin, pts, route, i, j) < SegmentDistance(dist, origin, pts, route, i, j)
    case Intended => AddedEdges(dist, pts, route, i, j) < RemovedEdges(dist, pts, route, i, j)
  }

  /** Move (i, j) comes no earlier than (i0, j0) in the scan order of the nested loops. */
  predicate NotBefore(i: nat, j: nat, i0: nat, j0: nat)
  {
    i0 < i || (i == i0 && j0 <= j)
  }

  /** The first accepted move at or after (i, j) in scan order, if any. */
  function FirstImprovingFrom(acc: Accounting, dist: Haversine, origin: Coord, pts: seq<Coord>, route: seq<nat>, i: nat, j: nat): (m: Option<Move>)
    requires ValidRoute(route, |pts|) && i + 2 <= j
    ensures m.Some? ==> ValidMove(route, m.value.i, m.value.j) && NotBefore(m.value.i, m.value.j, i, j)
    decreases |route| - i, |route| - j
  {
    if i + 1 >= |route| then None
    else if j >= |route| then FirstImprovingFrom(acc, dist, origin, pts, route, i + 1, i + 3)
    else if Improves(acc, dist, origin, pts, route, i, j) then Some(Move(i, j))
    else FirstImprovingFrom(acc, dist, origin, pts, route, i, j + 1)
  }

  /** The move found is one the acceptance test accepts. */
  lemma {:induction false} FirstImprovingFromImproves(acc: Accounting, dist: Haversine, origin: Coord, pts: seq<Coord>, route: seq<nat>, i: nat, j: nat)
    requires ValidRoute(route, |pts|) && i + 2 <= j
    ensures var m := FirstImprovingFrom(acc, dist, origin, pts, route, i, j);
      m.Some? ==> Improves(acc, dist, origin, pts, route, m.value.i, m.value.j)
    decreases |route| - i, |route| - j
  {
    if i + 1 >= |route| {
    } else if j >= |route| {
      FirstImprovingFromImproves(acc, dist, origin, pts, route, i + 1, i + 3);
    } else if !Improves(acc, dist, origin, pts, route, i, j) {
      FirstImprovingFromImproves(acc, dist, origin, pts, route, i, j + 1);
    }
  }

  /** No move between (i, j) and the one found is accepted; when none is found, no move from (i, j) on is. */
  lemma {:induction false} FirstImprovingFromIsFirst(acc: Accounting, dist: Haversine, origin: Coord, pts: seq<Coord>, route: seq<nat>, i: nat, j: nat, a: nat, b: nat)
    requires ValidRoute(route, |pts|) && i + 2 <= j
    requires ValidMove(route, a, b) && NotBefore(a, b, i, j)
    ensures var m := FirstImprovingFrom(acc, dist, origin, pts, route, i, j);
      (m.None? || !NotBefore(a, b, m.value.i, m.value.j)) ==> !Improves(acc, dist, origin, pts, route, a, b)
    decreases |route| - i, |route| - j
  {
    if i + 1 >= |route| {
    } else if j >= |route| {
      FirstImprovingFromIsFirst(acc, dist, origin, pts, route, i + 1, i + 3, a, b);
    } else if Improves(acc, dist, origin, pts, route, i, j) {
    } else if a == i && b == j {
    } else {
      FirstImprovingFromIsFirst(acc, dist, origin, pts, route, i, j + 1, a, b);
    }
  }

  /** One pass of the nested loops: the first accepted move, or none. */
  function FirstImprovingMove(acc: Accounting, dist: Haversine, origin: Coord, pts: seq<Coord>, route: seq<nat>): (m: Option<Move>)
    requires ValidRoute(route, |pts|)
    ensures m.Some? ==> ValidMove(route, m.value.i, m.value.j)
  {
    FirstImprovingFrom(acc, dist, origin, pts, route, 0, 2)
  }

  /**
   * A pass applies the first accepted move in scan order (`i` ascending, then `j`): no move
   * before it is accepted, and a pass that finds none leaves no acceptable move at all.
   */
  lemma FirstImprovingMoveIsFirst(acc: Accounting, dist: Haversine, origin: Coord, pts: seq<Coord>, route: seq<nat>, a: nat, b: nat)
    requires ValidRoute(route, |pts|) && ValidMove(route, a, b)
    ensures var m := FirstImprovingMove(acc, dist, origin, pts, route);
      && (m.Some? ==> Improves(acc, dist, origin, pts, route, m.value.i, m.value.j))
      && ((m.None? || a < m.value.i || (a == m.value.i && b < m.value.j)) ==> !Improves(acc, dist, origin, pts, route, a, b))
  {
    FirstImprovingFromImproves(acc, dist, origin, pts, route, 0, 2);
    FirstImprovingFromIsFirst(acc, dist, origin, pts, route, 0, 2, a, b);
  }

  /** Every move a pass applies is accepted by the test. */
  lemma FirstImprovingMoveImproves(acc: Accounting, dist: Haversine, origin: Coord, pts: seq<Coord>, route: seq<nat>)
    requires ValidRoute(route, |pts|)
    ensures var m := FirstImprovingMove(acc, dist, origin, pts, route);
      m.Some? ==> Improves(acc, dist, origin, pts, route, m.value.i, m.value.j)
  {
    FirstImprovingFromImproves(acc, dist, origin, pts, route, 0, 2);
  }

  /** Up to `fuel` passes, each applying the first accepted move; stops early at a pass that accepts none. */
  function TwoOptPasses(acc: Accounting, dist: Haversine, origin: Coord, pts: seq<Coord>, route: seq<nat>, fuel: nat): (r: seq<nat>)
    requires ValidRoute(route, |pts|)
    ensures |r| == |route|
    ensures ValidRoute(r, |pts|)
    decreases fuel
  {
    if fuel == 0 then route
    else
      match FirstImprovingMove(acc, dist, origin, pts, route)
      case None => route
      case Some(m) =>
        ReverseSegmentValid(route, m.i, m.j, |pts|);
        TwoOptPasses(acc, dist, origin, pts, ReverseSegment(route, m.i, m.j), fuel - 1)
  }

  /** One unfolding of the passes: stop when no move is accepted, otherwise apply it and continue with one pass fewer. */
  lemma TwoOptPassesStep(acc: Accounting, dist: Haversine, origin: Coord, pts: seq<Coord>, route: seq<nat>, fuel: nat)
    requires ValidRoute(route, |pts|) && fuel > 0
    ensures FirstImprovingMove(acc, dist, origin, pts, route).None? ==> TwoOptPasses(acc, dist, origin, pts, route, fuel) == route
    ensures FirstImprovingMove(acc, dist, origin, pts, route).Some? ==>
      var m := FirstImprovingMove(acc, dist, origin, pts, route).value;
      && ValidRoute(ReverseSegment(route, m.i, m.j), |pts|)
      && TwoOptPasses(acc, dist, origin, pts, route, fuel) == TwoOptPasses(acc, dist, origin, pts, ReverseSegment(route, m.i, m.j), fuel - 1)
  {
    if FirstImprovingMove(acc, dist, origin, pts, route).Some? {
      var m := FirstImprovingMove(acc, dist, origin, pts, route).value;
      ReverseSegmentValid(route, m.i, m.j, |pts|);
    }
  }

  /** The passes only reorder the stops, and never move the first one (every move has i >= 0). */
  lemma TwoOptPassesPermutes(acc: Accounting, dist: Haversine, origin: Coord, pts: seq<Coord>, route: seq<nat>, fuel: nat)
    requires ValidRoute(route, |pts|)
    ensures var r := TwoOptPasses(acc, dist, origin, pts, route, fuel);
      && multiset(r) == multiset(route)
      && (|route| > 0 ==> r[0] == route[0])
    decreases fuel
  {
    if fuel > 0 && FirstImprovingMove(acc, dist, origin, pts, route).Some? {
      var m := FirstImprovingMove(acc, dist, origin, pts, route).value;
      ReverseSegmentValid(route, m.i, m.j, |pts|);
      ReverseSegmentIndex(route, m.i, m.j);
      ReverseSegmentPermutes(route, m.i, m.j);
      var next := ReverseSegment(route, m.i, m.j);
      TwoOptPassesPermutes(acc, dist, origin, pts, next, fuel - 1);
      var t, t2 := TwoOptPasses(acc, dist, origin, pts, route, fuel), TwoOptPasses(acc, dist, origin, pts, next, fuel - 1);
      assert t == t2;
    }
  }

  /** `_two_opt_improvement`'s reordering: routes under three stops are left alone. */
  function TwoOptOrder(acc: Accounting, dist: Haversine, origin: Coord, pts: seq<Coord>, route: seq<nat>, maxIterations: int): (r: seq<nat>)
    requires ValidRoute(route, |pts|)
    ensures |route| < 3 ==> r == route
    ensures |r| == |route| && multiset(r) == multiset(route) && ValidRoute(r, |pts|)
    ensures |route| > 0 ==> r[0] == route[0]
  {
    if |route| < 3 then route
    else
      var fuel: nat := if maxIterations < 0 then 0 else maxIterations;
      TwoOptPassesPermutes(acc, dist, origin, pts, route, fuel);
      TwoOptPasses(acc, dist, origin, pts, route, fuel)
  }

  /** How many passes applied a move before the loop stopped: at most `fuel`. */
  function PassesMade(acc: Accounting, dist: Haversine, origin: Coord, pts: seq<Coord>, route: seq<nat>, fuel: nat): (n: nat)
    requires ValidRoute(route, |pts|)
    ensures n <= fuel
    decreases fuel
  {
    if fuel == 0 then 0
    else
      match FirstImprovingMove(acc, dist, origin, pts, route)
      case None => 0
      case Some(m) =>
        ReverseSegmentValid(route, m.i, m.j, |pts|);
        1 + PassesMade(acc, dist, origin, pts, ReverseSegment(route, m.i, m.j), fuel - 1)
  }

  /**
   * The passes stop for one of two reasons: `fuel` moves were applied, or the route reached
   * admits no accepted move at all (it is a local optimum for the acceptance test).
   */
  lemma {:induction false} TwoOptPassesEnd(acc: Accounting, dist: Haversine, origin: Coord, pts: seq<Coord>, route: seq<nat>, fuel: nat)
    requires ValidRoute(route, |pts|)
    ensures PassesMade(acc, dist, origin, pts, route, fuel) < fuel ==>
      FirstImprovingMove(acc, dist, origin, pts, TwoOptPasses(acc, dist, origin, pts, route, fuel)).None?
    decreases fuel
  {
    if fuel > 0 {
      match FirstImprovingMove(acc, dist, origin, pts, route)
      case None =>
      case Some(m) =>
        ReverseSegmentValid(route, m.i, m.j, |pts|);
        TwoOptPassesEnd(acc, dist, origin, pts, ReverseSegment(route, m.i, m.j), fuel - 1);
    }
  }

  /**
   * What the as-written test really compares. Inside the route it accepts exactly when
   * route[i+1]->route[j+1] is shorter than route[j]->route[j+1]; at the tail exactly when
   * route[i]->route[i+1] is shorter than route[i]->route[j]. Neither is the length change.
   */
  lemma AsWrittenAcceptance(dist: Haversine, origin: Coord, pts: seq<Coord>, route: seq<nat>, i: nat, j: nat)
    requires ValidRoute(route, |pts|) && ValidMove(route, i, j)
    ensures j + 1 < |route| ==>
      (Improves(AsWritten, dist, origin, pts, route, i, j) <==> dist(pts[route[i + 1]], pts[route[j + 1]]) < dist(pts[route[j]], pts[route[j + 1]]))
    ensures j + 1 == |route| ==>
      (Improves(AsWritten, dist, origin, pts, route, i, j) <==> dist(pts[route[i]], pts[route[i + 1]]) < dist(pts[route[i]], pts[route[j]]))
  {
  }

  /** The stops of a concatenation are the stops of its parts. */
  lemma StopsConcat(pts: seq<Coord>, x: seq<nat>, y: seq<nat>)
    requires ValidRoute(x, |pts|) && ValidRoute(y, |pts|)
    ensures ValidRoute(x + y, |pts|)
    ensures Stops(pts, x + y) == Stops(pts, x) + Stops(pts, y)
  {
    assert forall k :: 0 <= k < |x + y| ==> (x + y)[k] == if k < |x| then x[k] else y[k - |x|];
  }

  /** The stops of a reversed route are its stops reversed. */
  lemma StopsReversed(pts: seq<Coord>, y: seq<nat>)
    requires ValidRoute(y, |pts|)
    ensures ValidRoute(Reversed(y), |pts|)
    ensures Stops(pts, Reversed(y)) == Reversed(Stops(pts, y))
  {
    ValidPermutation(Reversed(y), y, |pts|);
  }

  /**
   * Replacing the last part `b` of a path by a part `b2` of the same length whose ends are
   * swapped trades the edge into `b`'s first point for one into its last point.
   */
  lemma PathLengthSwapTail(dist: Haversine, a: seq<Coord>, b: seq<Coord>, b2: seq<Coord>, c: seq<Coord>)
    requires |a| > 0 && |b| > 0 && |b2| == |b| && c == []
    requires PathLength(dist, b2) == PathLength(dist, b)
    requires b2[0] == b[|b| - 1] && b2[|b2| - 1] == b[0]
    ensures PathLength(dist, a + b2 + c) + dist(a[|a| - 1], b[0]) == PathLength(dist, a + b + c) + dist(a[|a| - 1], b[|b| - 1])
  {
    assert a + b + c == a + b && a + b2 + c == a + b2;
    PathLengthConcat(dist, a, b);
    PathLengthConcat(dist, a, b2);
  }

  /** The same exchange for a middle part `b` followed by a non-empty rest `c`: both joining edges change. */
  lemma PathLengthSwapMiddle(dist: Haversine, a: seq<Coord>, b: seq<Coord>, b2: seq<Coord>, c: seq<Coord>)
    requires |a| > 0 && |b| > 0 && |b2| == |b| && |c| > 0
    requires PathLength(dist, b2) == PathLength(dist, b)
    requires b2[0] == b[|b| - 1] && b2[|b2| - 1] == b[0]
    ensures PathLength(dist, a + b2 + c) + dist(a[|a| - 1], b[0]) + dist(b[|b| - 1], c[0])
         == PathLength(dist, a + b + c) + dist(a[|a| - 1], b[|b| - 1]) + dist(b[0], c[0])
  {
    PathLengthConcat(dist, a, b);
    PathLengthConcat(dist, a, b2);
    assert (a + b)[|a + b| - 1] == b[|b| - 1];
    assert (a + b2)[|a + b2| - 1] == b2[|b2| - 1];
    PathLengthConcat(dist, a + b, c);
    PathLengthConcat(dist, a + b2, c);
  }

  /** The tour through `x + y + z`, split into the tour through `x` and the stops of `y` and of `z`. */
  lemma TourSplit(origin: Coord, pts: seq<Coord>, x: seq<nat>, y: seq<nat>, z: seq<nat>)
    requires ValidRoute(x, |pts|) && ValidRoute(y, |pts|) && ValidRoute(z, |pts|)
    ensures ValidRoute(x + y + z, |pts|)
    ensures [origin] + Stops(pts, x + y + z) == ([origin] + Stops(pts, x)) + Stops(pts, y) + Stops(pts, z)
  {
    StopsConcat(pts, x, y);
    StopsConcat(pts, x + y, z);
    var sx, sy, sz := Stops(pts, x), Stops(pts, y), Stops(pts, z);
    ConcatAssoc([origin], sx + sy, sz);
    ConcatAssoc([origin], sx, sy);
  }

  /** The tour of a route and of its reversal, split around the reversed positions. */
  lemma ReversedTourSplit(origin: Coord, pts: seq<Coord>, route: seq<nat>, i: nat, j: nat)
    requires ValidRoute(route, |pts|) && i < j < |route|
    ensures ValidRoute(route[..i + 1], |pts|) && ValidRoute(route[i + 1..j + 1], |pts|) && ValidRoute(route[j + 1..], |pts|)
    ensures ValidRoute(ReverseSegment(route, i, j), |pts|)
    ensures var a, b, c := [origin] + Stops(pts, route[..i + 1]), Stops(pts, route[i + 1..j + 1]), Stops(pts, route[j + 1..]);
      && [origin] + Stops(pts, route) == a + b + c
      && [origin] + Stops(pts, ReverseSegment(route, i, j)) == a + Reversed(b) + c
  {
    var x, y, z := route[..i + 1], route[i + 1..j + 1], route[j + 1..];
    ValidSlice(route, |pts|, 0, i + 1);
    ValidSlice(route, |pts|, i + 1, j + 1);
    ValidSlice(route, |pts|, j + 1, |route|);
    assert route == x + y + z;
    ReverseSegmentSlices(route, i, j);
    TourSplit(origin, pts, x, y, z);
    StopsReversed(pts, y);
    TourSplit(origin, pts, x, Reversed(y), z);
  }

  /** The end points of the three parts of the tour split around a move. */
  lemma SegmentEnds(origin: Coord, pts: seq<Coord>, route: seq<nat>, i: nat, j: nat)
    requires ValidRoute(route, |pts|) && ValidMove(route, i, j)
    ensures ValidRoute(route[..i + 1], |pts|) && ValidRoute(route[i + 1..j + 1], |pts|) && ValidRoute(route[j + 1..], |pts|)
    ensures var a, b, c := [origin] + Stops(pts, route[..i + 1]), Stops(pts, route[i + 1..j + 1]), Stops(pts, route[j + 1..]);
      && |a| > 0 && a[|a| - 1] == pts[route[i]]
      && |b| > 0 && b[0] == pts[route[i + 1]] && b[|b| - 1] == pts[route[j]]
      && (j + 1 < |route| ==> |c| > 0 && c[0] == pts[route[j + 1]])
      && (j + 1 == |route| ==> c == [])
  {
    var x, y, z := route[..i + 1], route[i + 1..j + 1], route[j + 1..];
    ValidSlice(route, |pts|, 0, i + 1);
    ValidSlice(route, |pts|, i + 1, j + 1);
    ValidSlice(route, |pts|, j + 1, |route|);
    assert x[i] == route[i];
    assert |y| == j - i && y[0] == route[i + 1] && y[j - i - 1] == route[j];
    assert j + 1 < |route| ==> z[0] == route[j + 1];
  }

  /** The tours before and after a move, as three parts of coordinates and their end points. */
  lemma TourParts(origin: Coord, pts: seq<Coord>, route: seq<nat>, i: nat, j: nat) returns (a: seq<Coord>, b: seq<Coord>, c: seq<Coord>)
    requires ValidRoute(route, |pts|) && ValidMove(route, i, j)
    ensures ValidRoute(ReverseSegment(route, i, j), |pts|)
    ensures [origin] + Stops(pts, route) == a + b + c
    ensures [origin] + Stops(pts, ReverseSegment(route, i, j)) == a + Reversed(b) + c
    ensures |a| > 0 && a[|a| - 1] == pts[route[i]]
    ensures |b| > 0 && b[0] == pts[route[i + 1]] && b[|b| - 1] == pts[route[j]]
    ensures j + 1 < |route| ==> |c| > 0 && c[0] == pts[route[j + 1]]
    ensures j + 1 == |route| ==> c == []
  {
    ReversedTourSplit(origin, pts, route, i, j);
    SegmentEnds(origin, pts, route, i, j);
    a, b, c := [origin] + Stops(pts, route[..i + 1]), Stops(pts, route[i + 1..j + 1]), Stops(pts, route[j + 1..]);
  }

  /** Reversing positions i+1..j trades exactly the removed edges for the added ones. */
  lemma ReversalLengthChange(dist: Haversine, origin: Coord, pts: seq<Coord>, route: seq<nat>, i: nat, j: nat)
    requires ValidRoute(route, |pts|) && ValidMove(route, i, j)
    ensures ValidRoute(ReverseSegment(route, i, j), |pts|)
    ensures RouteLength(dist, origin, pts, ReverseSegment(route, i, j)) + RemovedEdges(dist, pts, route, i, j)
         == RouteLength(dist, origin, pts, route) + AddedEdges(dist, pts, route, i, j)
  {
    var a, b, c := TourParts(origin, pts, route, i, j);
    var rb := Reversed(b);
    PathLengthReversed(dist, b);
    assert rb[0] == b[|b| - 1] && rb[|rb| - 1] == b[0];
    if j + 1 < |route| {
      PathLengthSwapMiddle(dist, a, b, rb, c);
    } else {
      PathLengthSwapTail(dist, a, b, rb, c);
    }
  }

  /** With the intended accounting the move a pass applies shortens the tour. */
  lemma IntendedPassShortens(dist: Haversine, origin: Coord, pts: seq<Coord>, route: seq<nat>)
    requires ValidRoute(route, |pts|)
    requires FirstImprovingMove(Intended, dist, origin, pts, route).Some?
    ensures var m := FirstImprovingMove(Intended, dist, origin, pts, route).value;
      && ValidRoute(ReverseSegment(route, m.i, m.j), |pts|)
      && RouteLength(dist, origin, pts, ReverseSegment(route, m.i, m.j)) < RouteLength(dist, origin, pts, route)
  {
    var m := FirstImprovingMove(Intended, dist, origin, pts, route).value;
    FirstImprovingMoveImproves(Intended, dist, origin, pts, route);
    ReversalLengthChange(dist, origin, pts, route, m.i, m.j);
  }

  /** With the intended accounting every accepted move shortens the tour, so the passes never lengthen it. */
  lemma {:induction false} IntendedTwoOptNeverLengthens(dist: Haversine, origin: Coord, pts: seq<Coord>, route: seq<nat>, fuel: nat)
    requires ValidRoute(route, |pts|)
    ensures RouteLength(dist, origin, pts, TwoOptPasses(Intended, dist, origin, pts, route, fuel)) <= RouteLength(dist, origin, pts, route)
    decreases fuel, 1
  {
    if fuel > 0 && FirstImprovingMove(Intended, dist, origin, pts, route).Some? {
      IntendedPassesShorten(dist, origin, pts, route, fuel);
    } else {
      assert TwoOptPasses(Intended, dist, origin, pts, route, fuel) == route;
    }
  }

  /** A pass that applies a move strictly shortens the tour, and the later passes do not undo the gain. */
  lemma IntendedPassesShorten(dist: Haversine, origin: Coord, pts: seq<Coord>, route: seq<nat>, fuel: nat)
    requires ValidRoute(route, |pts|)
    requires fuel > 0 && FirstImprovingMove(Intended, dist, origin, pts, route).Some?
    ensures RouteLength(dist, origin, pts, TwoOptPasses(Intended, dist, origin, pts, route, fuel)) < RouteLength(dist, origin, pts, route)
    decreases fuel, 0
  {
    var m := FirstImprovingMove(Intended, dist, origin, pts, route).value;
    IntendedPassShortens(dist, origin, pts, route);
    var next := ReverseSegment(route, m.i, m.j);
    IntendedTwoOptNeverLengthens(dist, origin, pts, next, fuel - 1);
    var t, t2 := TwoOptPasses(Intended, dist, origin, pts, route, fuel), TwoOptPasses(Intended, dist, origin, pts, next, fuel - 1);
    assert t == t2;
    assert RouteLength(dist, origin, pts, t) == RouteLength(dist, origin, pts, t2);
  }

  /**
   * One pass of `_two_opt_improvement`'s nested `for` loops: scan the moves in order, apply the
   * first one the acceptance test accepts and stop; report whether a move was applied.
   */
  method TwoOptPass(acc: Accounting, dist: Haversine, origin: Coord, pts: seq<Coord>, route: seq<nat>) returns (improved: bool, r: seq<nat>)
    requires ValidRoute(route, |pts|)
    ensures improved <==> FirstImprovingMove(acc, dist, origin, pts, route).Some?
    ensures !improved ==> r == route
    ensures improved ==> var m := FirstImprovingMove(acc, dist, origin, pts, route).value; r == ReverseSegment(route, m.i, m.j)
  {
    r := route;
    improved := false;
    if |route| < 2 {
      return;
    }
    var i := 0;
    while i < |route| - 1
      invariant 0 <= i <= |route| - 1
      invariant r == route && !improved
      invariant FirstImprovingMove(acc, dist, origin, pts, route) == FirstImprovingFrom(acc, dist, origin, pts, route, i, i + 2)
    {
      improved, r := TwoOptRow(acc, dist, origin, pts, route, i);
      if improved {
        return;
      }
      i := i + 1;
    }
  }

  /**
   * The inner `for j` loop of a pass, for one `i`: the first accepted move (i, j), if any. As
   * written, the test computes `current_dist` on the route and `new_dist` on the reversed one.
   */
  method TwoOptRow(acc: Accounting, dist: Haversine, origin: Coord, pts: seq<Coord>, route: seq<nat>, i: nat) returns (found: bool, r: seq<nat>)
    requires ValidRoute(route, |pts|) && i + 1 < |route|
    ensures var m := FirstImprovingFrom(acc, dist, origin, pts, route, i, i + 2);
      if found then m.Some? && m.value.i == i && r == ReverseSegment(route, i, m.value.j)
      else r == route && m == FirstImprovingFrom(acc, dist, origin, pts, route, i + 1, i + 3)
  {
    r := route;
    found := false;
    var j := i + 2;
    while j < |route|
      invariant i + 2 <= j <= |route|
      invariant r == route && !found
      invariant FirstImprovingFrom(acc, dist, origin, pts, route, i, i + 2) == FirstImprovingFrom(acc, dist, origin, pts, route, i, j)
    {
      var newRoute := ReverseSegment(route, i, j);
      var accept: bool;
      if acc == AsWritten {
        var currentDist := SegmentDistance(dist, origin, pts, route, i, j);
        ReversedSegmentDistanceIsLiteral(dist, origin, pts, route, i, j);
        var newDist := SegmentDistance(dist, origin, pts, newRoute, i, j);
        accept := newDist < currentDist;
      } else {
        accept := AddedEdges(dist, pts, route, i, j) < RemovedEdges(dist, pts, route, i, j);
      }
      if accept {
        r := newRoute;
        found := true;
        return;
      }
      j := j + 1;
    }
  }

  /** What one pass of the loop does to the passes still to run. */
  lemma PassAdvances(acc: Accounting, dist: Haversine, origin: Coord, pts: seq<Coord>, r0: seq<nat>, r: seq<nat>, improved: bool, left: nat)
    requires ValidRoute(r0, |pts|) && left > 0
    requires improved <==> FirstImprovingMove(acc, dist, origin, pts, r0).Some?
    requires !improved ==> r == r0
    requires improved ==> var m := FirstImprovingMove(acc, dist, origin, pts, r0).value; r == ReverseSegment(r0, m.i, m.j)
    ensures ValidRoute(r, |pts|)
    ensures improved ==> TwoOptPasses(acc, dist, origin, pts, r0, left) == TwoOptPasses(acc, dist, origin, pts, r, left - 1)
    ensures !improved ==> TwoOptPasses(acc, dist, origin, pts, r0, left) == r
  {
    TwoOptPassesStep(acc, dist, origin, pts, r0, left);
  }

  /** `_two_opt_improvement`'s loop: passes that apply the first accepted move and restart, at most `maxIterations` of them. */
  method TwoOptReorder(acc: Accounting, dist: Haversine, origin: Coord, pts: seq<Coord>, route: seq<nat>, maxIterations: int) returns (r: seq<nat>)
    requires ValidRoute(route, |pts|)
    requires |route| >= 3
    ensures r == TwoOptOrder(acc, dist, origin, pts, route, maxIterations)
  {
    ghost var fuel: nat := if maxIterations < 0 then 0 else maxIterations;
    ghost var target := TwoOptPasses(acc, dist, origin, pts, route, fuel);
    ghost var left: nat := fuel;
    r := route;
    var improved := true;
    var iterations := 0;
    while improved && iterations < maxIterations
      invariant 0 <= iterations <= fuel && left == fuel - iterations
      invariant ValidRoute(r, |pts|)
      invariant improved ==> target == TwoOptPasses(acc, dist, origin, pts, r, left)
      invariant !improved ==> target == r
      decreases maxIterations - iterations
    {
      ghost var r0 := r;
      iterations := iterations + 1;
      improved, r := TwoOptPass(acc, dist, origin, pts, r);
      PassAdvances(acc, dist, origin, pts, r0, r, improved, left);
      left := left - 1;
    }
  }

  // ---------------------------------------------------------------- details, efficiency, summary

  /** `_calculate_route_details`: for each stop, the leg from the previous position and the distance so far. */
  function RouteDetails(dist: Haversine, origin: Coord, pts: seq<Coord>, route: seq<nat>): (legs: seq<RouteLeg>)
    requires ValidRoute(route, |pts|)
    ensures |legs| == |route|
    ensures forall k :: 0 <= k < |route| ==> legs[k].index == route[k]
  {
    seq(|route|, k requires 0 <= k < |route| =>
      ValidSlice(route, |pts|, 0, k + 1);
      RouteLeg(route[k], dist(Current(origin, pts, route, k), pts[route[k]]), RouteLength(dist, origin, pts, route[..k + 1])))
  }

  /** The legs' distances from the previous position. */
  function FromPrevs(legs: seq<RouteLeg>): (r: seq<real>)
    ensures |r| == |legs| && forall k :: 0 <= k < |legs| ==> r[k] == legs[k].fromPrev
  {
    seq(|legs|, k requires 0 <= k < |legs| => legs[k].fromPrev)
  }

  /**
   * The details keep the route's order and length, measure the first leg from the origin,
   * and each stop's distance from the start is the running sum of the legs up to it.
   */
  lemma {:induction false} RouteDetailsFacts(dist: Haversine, origin: Coord, pts: seq<Coord>, route: seq<nat>)
    requires ValidRoute(route, |pts|)
    ensures var legs := RouteDetails(dist, origin, pts, route);
      && |legs| == |route|
      && (forall k :: 0 <= k < |route| ==> legs[k].index == route[k])
      && (|route| > 0 ==> legs[0].fromPrev == dist(origin, pts[route[0]]) == legs[0].fromStart)
      && (forall k :: 0 <= k < |route| ==> legs[k].fromStart == Sum(FromPrevs(legs)[..k + 1]))
  {
    var legs := RouteDetails(dist, origin, pts, route);
    var prevs := FromPrevs(legs);
    forall k | 0 <= k < |route| ensures legs[k].fromStart == Sum(prevs[..k + 1]) {
      RunningSum(dist, origin, pts, route, k);
    }
    if |route| > 0 {
      RouteLengthExtend(dist, origin, pts, route, 0);
      assert route[..0] == [];
      assert [origin] + Stops(pts, []) == [origin];
    }
  }

  lemma {:induction false} RunningSum(dist: Haversine, origin: Coord, pts: seq<Coord>, route: seq<nat>, k: nat)
    requires ValidRoute(route, |pts|) && k < |route|
    ensures RouteDetails(dist, origin, pts, route)[k].fromStart == Sum(FromPrevs(RouteDetails(dist, origin, pts, route))[..k + 1])
    decreases k
  {
    var legs := RouteDetails(dist, origin, pts, route);
    var prevs := FromPrevs(legs);
    RouteLengthExtend(dist, origin, pts, route, k);
    assert prevs[..k + 1][..k] == prevs[..k];
    if k == 0 {
      assert route[..0] == [];
      assert [origin] + Stops(pts, []) == [origin];
    } else {
      RunningSum(dist, origin, pts, route, k - 1);
    }
  }

  /** Distances from the start never decrease along the route, and the last one is the whole tour. */
  lemma RouteDetailsMonotone(dist: Haversine, origin: Coord, pts: seq<Coord>, route: seq<nat>)
    requires ValidRoute(route, |pts|)
    ensures var legs := RouteDetails(dist, origin, pts, route);
      && (forall a, b :: 0 <= a <= b < |legs| ==> legs[a].fromStart <= legs[b].fromStart)
      && (|route| > 0 ==> legs[|legs| - 1].fromStart == RouteLength(dist, origin, pts, route))
  {
    var legs := RouteDetails(dist, origin, pts, route);
    forall a, b | 0 <= a <= b < |legs| ensures legs[a].fromStart <= legs[b].fromStart {
      DetailsStep(dist, origin, pts, route, a, b);
    }
    if |route| > 0 {
      assert route[..|route|] == route;
    }
  }

  lemma {:induction false} DetailsStep(dist: Haversine, origin: Coord, pts: seq<Coord>, route: seq<nat>, a: nat, b: nat)
    requires ValidRoute(route, |pts|) && a <= b < |route|
    ensures RouteDetails(dist, origin, pts, route)[a].fromStart <= RouteDetails(dist, origin, pts, route)[b].fromStart
    decreases b - a
  {
    if a < b {
      DetailsStep(dist, origin, pts, route, a, b - 1);
      RouteLengthExtend(dist, origin, pts, route, b);
      assert route[..b + 1][..b] == route[..b];
    }
  }

  /** `_calculate_route_details`, as the loop that walks the route accumulating the distance. */
  method CalculateRouteDetails(dist: Haversine, origin: Coord, pts: seq<Coord>, route: seq<nat>) returns (result: seq<RouteLeg>)
    requires ValidRoute(route, |pts|)
    ensures result == RouteDetails(dist, origin, pts, route)
  {
    result := [];
    var current := origin;
    var totalDistance := 0.0;
    ghost var legs := RouteDetails(dist, origin, pts, route);
    for k := 0 to |route|
      invariant ValidRoute(route[..k], |pts|)
      invariant result == legs[..k]
      invariant current == Current(origin, pts, route, k)
      invariant totalDistance == RouteLength(dist, origin, pts, route[..k])
    {
      RouteLengthExtend(dist, origin, pts, route, k);
      var place := pts[route[k]];
      var d := dist(current, place);
      totalDistance := totalDistance + d;
      result := result + [RouteLeg(route[k], d, totalDistance)];
      current := place;
    }
  }

  /** `_two_opt_improvement`: the 2-opt reordering (skipped below three stops), then the details. */
  method TwoOptImprovement(acc: Accounting, dist: Haversine, origin: Coord, pts: seq<Coord>, route: seq<nat>, maxIterations: int := 100) returns (legs: seq<RouteLeg>)
    requires ValidRoute(route, |pts|)
    ensures legs == RouteDetails(dist, origin, pts, TwoOptOrder(acc, dist, origin, pts, route, maxIterations))
  {
    if |route| < 3 {
      legs := CalculateRouteDetails(dist, origin, pts, route);
      return;
    }
    var r := TwoOptReorder(acc, dist, origin, pts, route, maxIterations);
    legs := CalculateRouteDetails(dist, origin, pts, r);
  }

  /** The visiting order `optimize_route` settles on. */
  function OptimizedOrder(acc: Accounting, dist: Haversine, setOrder: SetOrder, origin: Coord, pts: seq<Coord>): (route: seq<nat>)
    ensures |route| == |pts|
    ensures |pts| > 0 ==> route[0] == NearestNeighborOrder(dist, setOrder, origin, pts)[0]
  {
    NearestNeighborIsPermutation(dist, setOrder, origin, pts);
    TwoOptOrder(acc, dist, origin, pts, NearestNeighborOrder(dist, setOrder, origin, pts), MaxIterations)
  }

  /** `optimize_route`: nothing for no candidates, otherwise the details of the optimised order. */
  function OptimizedRoute(acc: Accounting, dist: Haversine, setOrder: SetOrder, origin: Coord, pts: seq<Coord>): (legs: seq<RouteLeg>)
    ensures |legs| == |pts|
    ensures forall k :: 0 <= k < |legs| ==> legs[k].index < |pts|
  {
    if |pts| == 0 then []
    else
      NearestNeighborIsPermutation(dist, setOrder, origin, pts);
      RouteDetails(dist, origin, pts, OptimizedOrder(acc, dist, setOrder, origin, pts))
  }

  /**
   * The optimised route visits every candidate exactly once; its first stop is the nearest
   * candidate to the origin (of several equally near ones, the one the set scan meets
   * first), and with fewer than three candidates the nearest-neighbour order is kept.
   */
  lemma OptimizedRouteFacts(acc: Accounting, dist: Haversine, setOrder: SetOrder, origin: Coord, pts: seq<Coord>)
    ensures var order := OptimizedOrder(acc, dist, setOrder, origin, pts);
      && ValidRoute(order, |pts|)
      && OptimizedRoute(acc, dist, setOrder, origin, pts) == RouteDetails(dist, origin, pts, order)
      && |order| == |pts|
      && (forall k :: 0 <= k < |pts| ==> multiset(order)[k] == 1)
      && (|pts| < 3 ==> order == NearestNeighborOrder(dist, setOrder, origin, pts))
      && (|pts| > 0 ==> forall k :: 0 <= k < |pts| ==> dist(origin, pts[order[0]]) <= dist(origin, pts[k]))
      && (|pts| > 0 ==> forall k :: 0 <= k < |pts| && ScanIndex(setOrder(|pts|), k) < ScanIndex(setOrder(|pts|), order[0]) ==>
            dist(origin, pts[order[0]]) < dist(origin, pts[k]))
  {
    var nn := NearestNeighborOrder(dist, setOrder, origin, pts);
    NearestNeighborIsPermutation(dist, setOrder, origin, pts);
    var order := OptimizedOrder(acc, dist, setOrder, origin, pts);
    if |pts| > 0 {
      NearestNeighborGreedy(dist, setOrder, origin, pts, 0);
      assert order[0] == nn[0];
      forall k | 0 <= k < |pts| && k != nn[0]
        ensures dist(origin, pts[nn[0]]) <= dist(origin, pts[k])
        ensures ScanIndex(setOrder(|pts|), k) < ScanIndex(setOrder(|pts|), nn[0]) ==> dist(origin, pts[nn[0]]) < dist(origin, pts[k])
      {
        assert k in multiset(nn);
        var u :| 0 <= u < |nn| && nn[u] == k;
      }
    } else {
      assert order == [];
    }
  }

  /** `optimize_route`, as the sequence of calls the source makes. */
  method OptimizeRoute(acc: Accounting, dist: Haversine, setOrder: SetOrder, origin: Coord, pts: seq<Coord>) returns (legs: seq<RouteLeg>)
    ensures legs == OptimizedRoute(acc, dist, setOrder, origin, pts)
  {
    if |pts| == 0 {
      return [];
    }
    var initialRoute := NearestNeighbor(dist, setOrder, origin, pts);
    NearestNeighborIsPermutation(dist, setOrder, origin, pts);
    legs := TwoOptImprovement(acc, dist, origin, pts, initialRoute, MaxIterations);
  }

  /**
   * `calculate_route_efficiency`: 1.0 for at most one place; otherwise
   * `1 - d / (1.5 * 10 n)`, clamped to [0, 1] and rounded to 2 decimals.
   */
  function CalculateRouteEfficiency(optimizedDistance: real, totalPlaces: int): (e: real)
    ensures 0.0 <= e <= 1.0
    ensures totalPlaces <= 1 ==> e == 1.0
  {
    if totalPlaces <= 1 then 1.0
    else
      var expectedDistance := (totalPlaces * 10) as real;
      var efficiency := Max(0.0, 1.0 - optimizedDistance / (expectedDistance * 1.5));
      var x := Min(1.0, efficiency);
      Round2Within(x, 0, 100);
      Round2(x)
  }

  /** Where a distance lies against a positive scale decides where their ratio lies against 0 and 1. */
  lemma RatioBounds(d: real, scale: real)
    requires scale > 0.0
    ensures d <= 0.0 ==> d / scale <= 0.0
    ensures d >= scale ==> d / scale >= 1.0
    ensures 0.0 <= d <= scale ==> 0.0 <= d / scale <= 1.0
  {
    assert d / scale * scale == d;
  }

  /** Dividing by a positive scale keeps the order. */
  lemma RatioMonotone(d1: real, d2: real, scale: real)
    requires scale > 0.0 && d1 <= d2
    ensures d1 / scale <= d2 / scale
  {
    assert d2 / scale - d1 / scale == (d2 - d1) / scale;
    RatioBounds(d2 - d1, scale);
  }

  /** The efficiency before rounding: `1 - d / scale`, clamped to [0, 1]. */
  lemma EfficiencyUnrounded(optimizedDistance: real, totalPlaces: int)
    requires totalPlaces > 1
    ensures var scale := 15.0 * totalPlaces as real;
      && scale > 0.0
      && CalculateRouteEfficiency(optimizedDistance, totalPlaces) == Round2(Min(1.0, Max(0.0, 1.0 - optimizedDistance / scale)))
  {
    assert (totalPlaces * 10) as real * 1.5 == 15.0 * totalPlaces as real;
  }

  /**
   * Beyond one place: a tour of no length scores 1, a tour of at least 15 km per place
   * scores 0, and in between the score is `1 - d / 15n` up to rounding.
   */
  lemma EfficiencyFacts(optimizedDistance: real, totalPlaces: int)
    requires totalPlaces > 1
    ensures optimizedDistance <= 0.0 ==> CalculateRouteEfficiency(optimizedDistance, totalPlaces) == 1.0
    ensures optimizedDistance >= 15.0 * totalPlaces as real ==> CalculateRouteEfficiency(optimizedDistance, totalPlaces) == 0.0
    ensures 0.0 <= optimizedDistance <= 15.0 * totalPlaces as real ==>
      -0.005 <= CalculateRouteEfficiency(optimizedDistance, totalPlaces) - (1.0 - optimizedDistance / (15.0 * totalPlaces as real)) <= 0.005
  {
    var scale := 15.0 * totalPlaces as real;
    EfficiencyUnrounded(optimizedDistance, totalPlaces);
    RatioBounds(optimizedDistance, scale);
    var ratio := optimizedDistance / scale;
    var x := Min(1.0, Max(0.0, 1.0 - ratio));
    assert CalculateRouteEfficiency(optimizedDistance, totalPlaces) == Round2(x);
    if optimizedDistance <= 0.0 {
      assert x == 100 as real / 100.0;
      Round2OfHundredths(100);
    } else if optimizedDistance >= scale {
      assert x == 0 as real / 100.0;
      Round2OfHundredths(0);
    } else {
      assert x == 1.0 - ratio;
    }
  }

  /** A longer tour never scores a higher efficiency. */
  lemma EfficiencyMonotone(d1: real, d2: real, totalPlaces: int)
    requires d1 <= d2
    ensures CalculateRouteEfficiency(d2, totalPlaces) <= CalculateRouteEfficiency(d1, totalPlaces)
  {
    if totalPlaces > 1 {
      var scale := 15.0 * totalPlaces as real;
      EfficiencyUnrounded(d1, totalPlaces);
      EfficiencyUnrounded(d2, totalPlaces);
      RatioMonotone(d1, d2, scale);
      Round2Monotone(Min(1.0, Max(0.0, 1.0 - d2 / scale)), Min(1.0, Max(0.0, 1.0 - d1 / scale)));
    }
  }

  /** The dictionary `get_route_summary` returns. */
  datatype RouteSummary = RouteSummary(totalStops: nat, totalDistanceKm: real, avgDistancePerStopKm: real)

  /** `get_route_summary`: all zeros for an empty route, otherwise totals read off the last leg. */
  function GetRouteSummary(legs: seq<RouteLeg>): (s: RouteSummary)
    ensures legs == [] ==> s == RouteSummary(0, 0.0, 0.0)
    ensures s.totalStops == |legs|
    ensures legs != [] ==> -0.005 <= s.totalDistanceKm - legs[|legs| - 1].fromStart <= 0.005
    ensures legs != [] ==> -0.005 <= s.avgDistancePerStopKm - legs[|legs| - 1].fromStart / |legs| as real <= 0.005
  {
    if legs == [] then RouteSummary(0, 0.0, 0.0)
    else
      var total := legs[|legs| - 1].fromStart;
      RouteSummary(|legs|, Round2(total), Round2(total / |legs| as real))
  }

  /** The summary of an optimised route reports the rounded length of the whole tour and the stop count. */
  lemma SummaryOfOptimizedRoute(acc: Accounting, dist: Haversine, setOrder: SetOrder, origin: Coord, pts: seq<Coord>)
    ensures var s := GetRouteSummary(OptimizedRoute(acc, dist, setOrder, origin, pts));
      && s.totalStops == |pts|
      && (|pts| == 0 ==> s == RouteSummary(0, 0.0, 0.0))
      && (|pts| > 0 ==> ValidRoute(OptimizedOrder(acc, dist, setOrder, origin, pts), |pts|)
                        && s.totalDistanceKm == Round2(RouteLength(dist, origin, pts, OptimizedOrder(acc, dist, setOrder, origin, pts)))
                        && s.totalDistanceKm >= 0.0)
  {
    OptimizedRouteFacts(acc, dist, setOrder, origin, pts);
    if |pts| > 0 {
      var order := OptimizedOrder(acc, dist, setOrder, origin, pts);
      RouteDetailsMonotone(dist, origin, pts, order);
      Round2NonNegative(RouteLength(dist, origin, pts, order));
    }
  }

  /** With the intended test, the optimised tour is never longer than the nearest-neighbour tour it starts from. */
  lemma IntendedOptimizedNoLonger(dist: Haversine, setOrder: SetOrder, origin: Coord, pts: seq<Coord>)
    ensures ValidRoute(NearestNeighborOrder(dist, setOrder, origin, pts), |pts|)
    ensures ValidRoute(OptimizedOrder(Intended, dist, setOrder, origin, pts), |pts|)
    ensures RouteLength(dist, origin, pts, OptimizedOrder(Intended, dist, setOrder, origin, pts))
         <= RouteLength(dist, origin, pts, NearestNeighborOrder(dist, setOrder, origin, pts))
  {
    NearestNeighborIsPermutation(dist, setOrder, origin, pts);
    OptimizedRouteFacts(Intended, dist, setOrder, origin, pts);
    var nn := NearestNeighborOrder(dist, setOrder, origin, pts);
    if |nn| >= 3 {
      IntendedTwoOptNeverLengthens(dist, origin, pts, nn, MaxIterations);
    }
  }

  // ---------------------------------------------------------------- the lengthening example

  /** Distance along one meridian: enough to play the three collinear stops of the example. */
  function LineDist(p: Coord, q: Coord): real
  {
    Abs(p.lat - q.lat)
  }

  lemma LineDistIsDistance()
    ensures IsDistance(LineDist)
  {
    forall p: Coord, q: Coord ensures LineDist(p, q) == LineDist(q, p) {
      assert p.lat - q.lat == -(q.lat - p.lat);
    }
  }

  const LineDistance: Haversine := (LineDistIsDistance(); LineDist)

  /**
   * Three stops A, B, C that lie, in this order, on a line through the origin, at 3, 5 and 8
   * from it: the pairwise distances are those of points on a line.
   */
  predicate CollinearStops(d: Haversine, origin: Coord, pts: seq<Coord>)
  {
    && |pts| == 3
    && d(origin, pts[0]) == 3.0 && d(origin, pts[1]) == 5.0 && d(origin, pts[2]) == 8.0
    && d(pts[0], pts[1]) == 2.0 && d(pts[0], pts[2]) == 5.0 && d(pts[1], pts[2]) == 3.0
  }

  const ExampleOrigin: Coord := Coord(0.0, 0.0)
  const ExamplePts: seq<Coord> := [Coord(3.0, 0.0), Coord(5.0, 0.0), Coord(8.0, 0.0)]

  /** Such stops exist: points on a meridian, measured by their difference in latitude. */
  lemma ExampleIsCollinear()
    ensures CollinearStops(LineDistance, ExampleOrigin, ExamplePts)
  {
  }

  lemma RangeThree()
    ensures Range(3) == [0, 1, 2]
  {
  }

  /** Nearest neighbour visits A, B, C in order, whatever order the set is scanned in. */
  lemma CollinearNearestNeighbor(d: Haversine, setOrder: SetOrder, origin: Coord, pts: seq<Coord>)
    requires CollinearStops(d, origin, pts)
    ensures NearestNeighborOrder(d, setOrder, origin, pts) == [0, 1, 2]
  {
    RangeThree();
    assert multiset(setOrder(3)) == multiset{0, 1, 2};
    ThreeCandidateTour(d, pts, origin, setOrder(3), 0, 1, 2);
  }

  /** The tour A, B, C is 8 long; the tour A, C, B is 11 long. */
  lemma CollinearLengths(d: Haversine, origin: Coord, pts: seq<Coord>)
    requires CollinearStops(d, origin, pts)
    ensures RouteLength(d, origin, pts, [0, 1, 2]) == 8.0
    ensures RouteLength(d, origin, pts, [0, 2, 1]) == 11.0
  {
    assert Stops(pts, [0, 1, 2]) == pts;
    assert Stops(pts, [0, 2, 1]) == [pts[0], pts[2], pts[1]];
    assert PathLength(d, [pts[1], pts[2]]) == 3.0;
    assert PathLength(d, [pts[0], pts[1], pts[2]]) == 5.0;
    assert [origin] + pts == [origin, pts[0], pts[1], pts[2]];
    assert PathLength(d, [pts[2], pts[1]]) == 3.0;
    assert PathLength(d, [pts[0], pts[2], pts[1]]) == 8.0;
    assert [origin] + [pts[0], pts[2], pts[1]] == [origin, pts[0], pts[2], pts[1]];
  }

  /** The as-written test accepts reversing B, C on A, B, C: it compares 5 with 8. */
  lemma CollinearAsWrittenFirstPass(d: Haversine, origin: Coord, pts: seq<Coord>)
    requires CollinearStops(d, origin, pts)
    ensures FirstImprovingMove(AsWritten, d, origin, pts, [0, 1, 2]) == Some(Move(0, 2))
  {
    var abc := [0, 1, 2];
    assert SegmentDistance(d, origin, pts, abc, 0, 2) == 8.0;
    assert ReversedSegmentDistance(d, origin, pts, abc, 0, 2) == 5.0;
  }

  /** Reversing positions 1..2 of A, B, C gives A, C, B. */
  lemma ReverseBC()
    ensures ReverseSegment([0, 1, 2], 0, 2) == [0, 2, 1]
  {
    ReverseSegmentIndex([0, 1, 2], 0, 2);
  }

  /** On A, C, B it accepts nothing: the only move compares 8 with 5. */
  lemma CollinearAsWrittenSecondPass(d: Haversine, origin: Coord, pts: seq<Coord>)
    requires CollinearStops(d, origin, pts)
    ensures FirstImprovingMove(AsWritten, d, origin, pts, [0, 2, 1]) == None
  {
    var acb := [0, 2, 1];
    assert SegmentDistance(d, origin, pts, acb, 0, 2) == 5.0;
    assert ReversedSegmentDistance(d, origin, pts, acb, 0, 2) == 8.0;
    assert FirstImprovingFrom(AsWritten, d, origin, pts, acb, 0, 3) == FirstImprovingFrom(AsWritten, d, origin, pts, acb, 1, 4);
  }

  /** So the as-written passes turn A, B, C into A, C, B and stop there. */
  lemma CollinearAsWritten(d: Haversine, origin: Coord, pts: seq<Coord>)
    requires CollinearStops(d, origin, pts)
    ensures TwoOptOrder(AsWritten, d, origin, pts, [0, 1, 2], MaxIterations) == [0, 2, 1]
  {
    CollinearAsWrittenFirstPass(d, origin, pts);
    ReverseBC();
    CollinearAsWrittenSecondPass(d, origin, pts);
    var acb := [0, 2, 1];
    assert TwoOptPasses(AsWritten, d, origin, pts, acb, 99) == acb;
  }

  /** The intended test refuses the only move (it would trade an edge of 2 for one of 5), so A, B, C stays. */
  lemma CollinearIntended(d: Haversine, origin: Coord, pts: seq<Coord>)
    requires CollinearStops(d, origin, pts)
    ensures TwoOptOrder(Intended, d, origin, pts, [0, 1, 2], MaxIterations) == [0, 1, 2]
  {
    var abc := [0, 1, 2];
    assert RemovedEdges(d, pts, abc, 0, 2) == 2.0 && AddedEdges(d, pts, abc, 0, 2) == 5.0;
    assert FirstImprovingFrom(Intended, d, origin, pts, abc, 0, 3) == FirstImprovingFrom(Intended, d, origin, pts, abc, 1, 4);
    assert FirstImprovingMove(Intended, d, origin, pts, abc) == None;
  }

  /**
   * On such stops, nearest neighbour finds the tour of length 8, the as-written 2-opt turns
   * it into one of length 11, and the intended accounting keeps the shorter tour.
   */
  lemma AsWrittenLengthensExample(d: Haversine, setOrder: SetOrder, origin: Coord, pts: seq<Coord>)
    requires CollinearStops(d, origin, pts)
    ensures NearestNeighborOrder(d, setOrder, origin, pts) == [0, 1, 2]
    ensures TwoOptOrder(AsWritten, d, origin, pts, [0, 1, 2], MaxIterations) == [0, 2, 1]
    ensures TwoOptOrder(Intended, d, origin, pts, [0, 1, 2], MaxIterations) == [0, 1, 2]
    ensures RouteLength(d, origin, pts, [0, 2, 1]) > RouteLength(d, origin, pts, [0, 1, 2])
  {
    CollinearNearestNeighbor(d, setOrder, origin, pts);
    CollinearLengths(d, origin, pts);
    CollinearAsWritten(d, origin, pts);
    CollinearIntended(d, origin, pts);
  }
}
