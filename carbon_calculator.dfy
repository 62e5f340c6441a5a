/**
 * `CarbonCalculator`: carbon figures for a trip. Transport emits 0.12 kg of CO2 per km; a
 * visit adds half the place's activity carbon score and its visitor carbon factor; the eco
 * score rewards low carbon, tourism, rating and route efficiency on a 0-10 scale; the
 * reduction is measured against a 15 kg baseline; the level labels a figure low, medium or high.
 */
module CarbonCalculator {
  import opened Numeric
  import opened Results
  import opened Config

  /** `calculate_transport_carbon`: distance times 0.12, rounded to 2 decimals. */
  function TransportCarbon(distanceKm: real): (c: real)
    ensures -0.005 <= c - distanceKm * 0.12 <= 0.005
  {
    Round2(distanceKm * TransportCarbonPerKm)
  }

  /** Transport carbon grows with the distance, is 0 for no distance and never negative for a real one. */
  lemma TransportCarbonFacts(a: real, b: real)
    ensures a <= b ==> TransportCarbon(a) <= TransportCarbon(b)
    ensures TransportCarbon(0.0) == 0.0
    ensures a >= 0.0 ==> TransportCarbon(a) >= 0.0
  {
    if a <= b {
      Round2Monotone(a * TransportCarbonPerKm, b * TransportCarbonPerKm);
    }
    Round2OfHundredths(0);
    if a >= 0.0 {
      Round2NonNegative(a * TransportCarbonPerKm);
    }
  }

  /** The two columns `calculate_place_carbon` reads with `row.get(column, 0)`; `None` is a missing field. */
  datatype CarbonFields = CarbonFields(activityCarbonScore: Option<real>, visitorCarbonFactor: Option<real>)

  function OrZero(x: Option<real>): real
  {
    if x.Some? then x.value else 0.0
  }

  /** The unrounded carbon of a visit: transport, half the activity score, and the visitor factor. */
  function PlaceCarbonExact(row: CarbonFields, distanceFromPrevKm: real): real
  {
    TransportCarbon(distanceFromPrevKm) + OrZero(row.activityCarbonScore) * 0.5 + OrZero(row.visitorCarbonFactor)
  }

  /** `calculate_place_carbon`, rounded to 2 decimals. */
  function PlaceCarbon(row: CarbonFields, distanceFromPrevKm: real): (c: real)
    ensures -0.005 <= c - PlaceCarbonExact(row, distanceFromPrevKm) <= 0.005
  {
    Round2(PlaceCarbonExact(row, distanceFromPrevKm))
  }

  predicate NonNegativeFields(row: CarbonFields)
  {
    OrZero(row.activityCarbonScore) >= 0.0 && OrZero(row.visitorCarbonFactor) >= 0.0
  }

  /** A missing field counts as 0, and a visit with non-negative inputs emits no negative carbon. */
  lemma PlaceCarbonFacts(row: CarbonFields, distanceFromPrevKm: real)
    ensures row.activityCarbonScore.None? && row.visitorCarbonFactor.None? ==>
      PlaceCarbon(row, distanceFromPrevKm) == Round2(TransportCarbon(distanceFromPrevKm))
    ensures NonNegativeFields(row) && distanceFromPrevKm >= 0.0 ==> PlaceCarbon(row, distanceFromPrevKm) >= 0.0
  {
    if NonNegativeFields(row) && distanceFromPrevKm >= 0.0 {
      TransportCarbonFacts(distanceFromPrevKm, distanceFromPrevKm);
      Round2NonNegative(PlaceCarbonExact(row, distanceFromPrevKm));
    }
  }

  /** The carbon of each `(place_row, distance_from_prev)` pair, in order. */
  function PlaceCarbons(places: seq<(CarbonFields, real)>): (r: seq<real>)
    ensures |r| == |places|
    ensures forall k :: 0 <= k < |places| ==> r[k] == PlaceCarbon(places[k].0, places[k].1)
  {
    seq(|places|, k requires 0 <= k < |places| => PlaceCarbon(places[k].0, places[k].1))
  }

  /** `calculate_trip_carbon`: the running sum of the visits' carbon, rounded to 2 decimals. */
  method CalculateTripCarbon(places: seq<(CarbonFields, real)>) returns (total: real)
    ensures total == Round2(Sum(PlaceCarbons(places)))
  {
    total := 0.0;
    var i := 0;
    while i < |places|
      invariant 0 <= i <= |places|
      invariant total == Sum(PlaceCarbons(places[..i]))
    {
      assert PlaceCarbons(places[..i + 1])[..i] == PlaceCarbons(places[..i]);
      total := total + PlaceCarbon(places[i].0, places[i].1);
      i := i + 1;
    }
    assert places[..i] == places;
    total := Round2(total);
  }

  /** A trip whose visits all have non-negative inputs has non-negative carbon; an empty trip has none. */
  lemma TripCarbonNonNegative(places: seq<(CarbonFields, real)>)
    requires forall k :: 0 <= k < |places| ==> NonNegativeFields(places[k].0) && places[k].1 >= 0.0
    ensures Round2(Sum(PlaceCarbons(places))) >= 0.0
    ensures places == [] ==> Round2(Sum(PlaceCarbons(places))) == 0.0
  {
    var cs := PlaceCarbons(places);
    forall k | 0 <= k < |cs| ensures cs[k] >= 0.0 {
      PlaceCarbonFacts(places[k].0, places[k].1);
    }
    SumNonNegative(cs);
    Round2NonNegative(Sum(cs));
    Round2OfHundredths(0);
  }

  /** `min(total_carbon_kg / 20, 1)`: carbon measured against a 20 kg trip, capped at 1. */
  function NormalizedCarbon(totalCarbonKg: real): (n: real)
    ensures n <= 1.0
    ensures totalCarbonKg >= 0.0 ==> n >= 0.0
  {
    Min(totalCarbonKg / 20.0, 1.0)
  }

  /** The eco score before clamping: up to 4 points for low carbon, 3 for tourism, 2 for rating, 1 for efficiency. */
  function RawEcoScore(totalCarbonKg: real, avgTourismScore: real, avgRating: real, routeEfficiency: real): (r: real)
    ensures totalCarbonKg >= 0.0 && 0.0 <= avgTourismScore <= 1.0 && 0.0 <= avgRating <= 5.0 && 0.0 <= routeEfficiency <= 1.0 ==>
      0.0 <= r <= 10.0
  {
    ((1.0 - NormalizedCarbon(totalCarbonKg)) * 4.0 + avgTourismScore * 3.0 + (avgRating / 5.0) * 2.0 + routeEfficiency * 1.0) / 10.0 * 10.0
  }

  /** `calculate_eco_score`: the raw score clamped to [0, 10] and rounded to 1 decimal. */
  function EcoScore(totalCarbonKg: real, avgTourismScore: real, avgRating: real, routeEfficiency: real): (s: real)
    ensures 0.0 <= s <= 10.0
    ensures var raw := RawEcoScore(totalCarbonKg, avgTourismScore, avgRating, routeEfficiency);
      0.0 <= raw <= 10.0 ==> -0.05 <= s - raw <= 0.05
  {
    var clamped := Max(0.0, Min(10.0, RawEcoScore(totalCarbonKg, avgTourismScore, avgRating, routeEfficiency)));
    Round1Within(clamped, 0, 100);
    Round1(clamped)
  }

  /** The component weights are the eco-score weight table of the configuration. */
  lemma EcoScoreUsesConfiguredWeights(c: real, t: real, r: real, e: real)
    ensures RawEcoScore(c, t, r, e)
         == (1.0 - NormalizedCarbon(c)) * EcoWeights.carbon + t * EcoWeights.tourism + (r / 5.0) * EcoWeights.rating + e * EcoWeights.efficiency
  {
  }

  /**
   * With inputs in their documented ranges (carbon >= 0, tourism and efficiency in [0, 1],
   * rating in [0, 5]) the carbon term is between 0 and 4 points and the clamp never applies.
   */
  lemma EcoScoreInRange(c: real, t: real, r: real, e: real)
    requires c >= 0.0 && 0.0 <= t <= 1.0 && 0.0 <= r <= 5.0 && 0.0 <= e <= 1.0
    ensures 0.0 <= (1.0 - NormalizedCarbon(c)) * 4.0 <= 4.0
    ensures 0.0 <= RawEcoScore(c, t, r, e) <= 10.0
  {
  }

  /** More carbon never raises the eco score. */
  lemma EcoScoreCarbonAntitone(c1: real, c2: real, t: real, r: real, e: real)
    requires c1 <= c2
    ensures EcoScore(c2, t, r, e) <= EcoScore(c1, t, r, e)
  {
    var x1 := Max(0.0, Min(10.0, RawEcoScore(c1, t, r, e)));
    var x2 := Max(0.0, Min(10.0, RawEcoScore(c2, t, r, e)));
    assert NormalizedCarbon(c1) <= NormalizedCarbon(c2);
    assert x2 <= x1;
    Round1Monotone(x2, x1);
  }

  /** The best trip scores 10: no carbon, full tourism score, a 5-star rating and full efficiency. */
  lemma EcoScoreBest()
    ensures EcoScore(0.0, 1.0, 5.0, 1.0) == 10.0
  {
    assert RawEcoScore(0.0, 1.0, 5.0, 1.0) == 10.0;
    Round1OfTenths(100);
  }

  /** The reduction before clamping and rounding: the share of the baseline saved, in percent. */
  function RawReduction(totalCarbonKg: real, baselineCarbonKg: real): real
    requires baselineCarbonKg > 0.0
  {
    ((baselineCarbonKg - totalCarbonKg) / baselineCarbonKg) * 100.0
  }

  /** `calculate_carbon_reduction_percent`: 0 for a non-positive baseline, else the saving clamped to [0, 100], rounded to 1 decimal. */
  function CarbonReductionPercent(totalCarbonKg: real, baselineCarbonKg: real := 15.0): (p: real)
    ensures baselineCarbonKg <= 0.0 ==> p == 0.0
    ensures 0.0 <= p <= 100.0
    ensures baselineCarbonKg > 0.0 && 0.0 <= RawReduction(totalCarbonKg, baselineCarbonKg) <= 100.0 ==>
      -0.05 <= p - RawReduction(totalCarbonKg, baselineCarbonKg) <= 0.05
  {
    if baselineCarbonKg <= 0.0 then 0.0
    else
      var clamped := Max(0.0, Min(100.0, RawReduction(totalCarbonKg, baselineCarbonKg)));
      Round1Within(clamped, 0, 1000);
      Round1(clamped)
  }

  /**
   * Emitting the baseline saves 0 %, emitting nothing saves 100 %, emitting more than the
   * baseline still reports 0 %, and more carbon never reports a larger saving.
   */
  lemma CarbonReductionFacts(t1: real, t2: real, baseline: real)
    requires baseline > 0.0
    ensures CarbonReductionPercent(baseline, baseline) == 0.0
    ensures CarbonReductionPercent(0.0, baseline) == 100.0
    ensures t1 >= baseline ==> CarbonReductionPercent(t1, baseline) == 0.0
    ensures t1 <= t2 ==> CarbonReductionPercent(t2, baseline) <= CarbonReductionPercent(t1, baseline)
  {
    Round1OfTenths(0);
    Round1OfTenths(1000);
    assert RawReduction(baseline, baseline) == 0.0;
    assert RawReduction(0.0, baseline) == 100.0;
    if t1 >= baseline {
      assert baseline - t1 <= 0.0;
      assert RawReduction(t1, baseline) <= 0.0;
    }
    if t1 <= t2 {
      assert baseline - t2 <= baseline - t1;
      assert RawReduction(t2, baseline) <= RawReduction(t1, baseline);
      Round1Monotone(Max(0.0, Min(100.0, RawReduction(t2, baseline))), Max(0.0, Min(100.0, RawReduction(t1, baseline))));
    }
  }

  /** `get_carbon_level`: below 5 kg low, below 12 kg medium, otherwise high. */
  function GetCarbonLevel(carbonKg: real): (level: CarbonLevel)
    ensures level == Low <==> carbonKg < 5.0
    ensures level == Medium <==> 5.0 <= carbonKg < 12.0
    ensures level == High <==> carbonKg >= 12.0
  {
    if carbonKg < 5.0 then Low
    else if carbonKg < 12.0 then Medium
    else High
  }

  function LevelRank(level: CarbonLevel): nat
  {
    match level
    case Low => 0
    case Medium => 1
    case High => 2
  }

  /** More carbon never gives a lower level. */
  lemma CarbonLevelMonotone(a: real, b: real)
    requires a <= b
    ensures LevelRank(GetCarbonLevel(a)) <= LevelRank(GetCarbonLevel(b))
  {
  }
}
