/**
 * Geographic helpers: the great-circle distance, its element-wise form, the length of a
 * path of waypoints, the travel-time estimate and the radius test.
 *
 * The haversine formula itself (sines, cosines, `asin`, `sqrt`, rounding to 2 decimals) is
 * not computed: every operation takes the distance as a parameter of type `Haversine`, a
 * function on coordinate pairs that is known only to have the three properties the formula
 * guarantees (non-negative, zero from a point to itself, symmetric).
 */
module GeoUtils {
  import opened Numeric
  import opened Seqs

  /** A (latitude, longitude) pair in degrees. */
  datatype Coord = Coord(lat: real, lng: real)

  /** What `haversine_distance` guarantees: `c = 2 asin(sqrt(a))` with `a >= 0`, `a = 0` for equal points, `a` symmetric. */
  ghost predicate IsDistance(d: (Coord, Coord) -> real)
  {
    && (forall p, q :: d(p, q) >= 0.0)
    && (forall p :: d(p, p) == 0.0)
    && (forall p, q :: d(p, q) == d(q, p))
  }

  /** `haversine_distance`, rounded to 2 decimals, as an abstract distance. */
  type Haversine = d: (Coord, Coord) -> real | IsDistance(d) witness (p: Coord, q: Coord) => 0.0

  lemma HaversineProperties(dist: Haversine, p: Coord, q: Coord)
    ensures dist(p, q) >= 0.0
    ensures dist(p, p) == 0.0
    ensures dist(p, q) == dist(q, p)
  {
  }

  /** `calculate_distances_vectorized`: the scalar distance from `start`, applied to every point. */
  function DistancesVectorized(dist: Haversine, start: Coord, points: seq<Coord>): (r: seq<real>)
    ensures |r| == |points|
    ensures forall k :: 0 <= k < |points| ==> r[k] == dist(start, points[k]) && r[k] >= 0.0
  {
    seq(|points|, k requires 0 <= k < |points| => dist(start, points[k]))
  }

  /** The sum of the legs between consecutive waypoints. */
  function PathLength(dist: Haversine, coords: seq<Coord>): (r: real)
    ensures r >= 0.0
  {
    if |coords| < 2 then 0.0 else dist(coords[0], coords[1]) + PathLength(dist, coords[1..])
  }

  /** Joining two paths adds the leg from the end of the first to the start of the second. */
  lemma {:induction false} PathLengthConcat(dist: Haversine, a: seq<Coord>, b: seq<Coord>)
    requires |a| > 0 && |b| > 0
    ensures PathLength(dist, a + b) == PathLength(dist, a) + dist(a[|a| - 1], b[0]) + PathLength(dist, b)
  {
    if |a| == 1 {
      assert (a + b)[1..] == b;
    } else {
      PathLengthConcat(dist, a[1..], b);
      assert (a + b)[1..] == a[1..] + b;
    }
  }

  /** A path walked backwards has the same length, because each leg is symmetric. */
  lemma {:induction false} PathLengthReversed(dist: Haversine, s: seq<Coord>)
    ensures PathLength(dist, Reversed(s)) == PathLength(dist, s)
  {
    if |s| >= 2 {
      PathLengthReversed(dist, s[1..]);
      PathLengthConcat(dist, Reversed(s[1..]), [s[0]]);
    }
  }

  /** `calculate_total_route_distance`: 0 below two waypoints, otherwise the rounded sum of consecutive legs. */
  method CalculateTotalRouteDistance(dist: Haversine, coordinates: seq<Coord>) returns (total: real)
    ensures total == Round2(PathLength(dist, coordinates))
    ensures |coordinates| < 2 ==> total == 0.0
    ensures total >= 0.0
  {
    if |coordinates| < 2 {
      return 0.0;
    }
    total := 0.0;
    var i := 0;
    while i < |coordinates| - 1
      invariant 0 <= i <= |coordinates| - 1
      invariant total == PathLength(dist, coordinates[..i + 1])
    {
      PathLengthConcat(dist, coordinates[..i + 1], [coordinates[i + 1]]);
      assert coordinates[..i + 1] + [coordinates[i + 1]] == coordinates[..i + 2];
      total := total + dist(coordinates[i], coordinates[i + 1]);
      i := i + 1;
    }
    assert coordinates[..i + 1] == coordinates;
    Round2NonNegative(total);
    total := Round2(total);
  }

  /**
   * `estimate_travel_time`: hours at `avgSpeedKmh` (40 by default), rounded to 2 decimals;
   * 0 when there is no positive distance. A positive distance at speed 0 raises a division
   * error, so callers must not ask for it.
   */
  function EstimateTravelTime(distanceKm: real, avgSpeedKmh: real := 40.0): (hours: real)
    requires distanceKm <= 0.0 || avgSpeedKmh != 0.0
    ensures distanceKm <= 0.0 ==> hours == 0.0
    ensures distanceKm > 0.0 ==> -0.005 <= hours - distanceKm / avgSpeedKmh <= 0.005
    ensures distanceKm > 0.0 && avgSpeedKmh > 0.0 ==> hours >= 0.0
  {
    if distanceKm <= 0.0 then 0.0
    else
      var h := distanceKm / avgSpeedKmh;
      if avgSpeedKmh > 0.0 then Round2NonNegative(h); Round2(h) else Round2(h)
  }

  /** `is_within_radius`. */
  predicate IsWithinRadius(dist: Haversine, center: Coord, point: Coord, radiusKm: real)
  {
    dist(center, point) <= radiusKm
  }

  /** A point is always within any non-negative radius of itself, and the test is symmetric in its two points. */
  lemma WithinRadiusFacts(dist: Haversine, center: Coord, point: Coord, radiusKm: real)
    ensures radiusKm >= 0.0 ==> IsWithinRadius(dist, center, center, radiusKm)
    ensures IsWithinRadius(dist, center, point, radiusKm) <==> IsWithinRadius(dist, point, center, radiusKm)
    ensures radiusKm < 0.0 ==> !IsWithinRadius(dist, center, point, radiusKm)
  {
  }
}
