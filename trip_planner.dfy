/**
 * `TripPlanner`: plans a trip from a start point, either by theme (the places of the theme's
 * categories within the radius, ranked by the weighted score) or by place name (the places
 * within the radius most similar to the named place). The chosen places are ordered by the
 * route optimiser, turned into stop records with their carbon and photos, and wrapped in a
 * response with the totals, the eco score and the narrator's texts.
 *
 * Every `raise ValueError(...)` of the source is a `Failure` carrying its message. The
 * random trip id is a parameter, and so are the 2-opt accounting of the route optimiser,
 * the order in which the optimiser's set of unvisited places is scanned, the regular
 * expression engine the name search uses, and the carbon key the narrator reads.
 */
module TripPlanning {
  import opened Numeric
  import opened Results
  import opened Seqs
  import opened Text
  import opened Config
  import opened GeoUtils
  import opened CarbonCalculator
  import opened RouteOptimizer
  import opened DataLoading
  import opened RouteStops
  import opened TripNarrator
  import opened TripSelection

  // ---------------------------------------------------------------- themes

  /** The first theme in `themes` with the given id. */
  function ThemeById(themes: seq<Theme>, id: string): (t: Option<Theme>)
    ensures t.None? <==> forall k :: 0 <= k < |themes| ==> themes[k].id != id
    ensures t.Some? ==> t.value.id == id && t.value in themes
  {
    if themes == [] then None
    else if themes[0].id == id then Some(themes[0])
    else
      var rest := ThemeById(themes[1..], id);
      assert forall k :: 1 <= k < |themes| ==> themes[k] == themes[1..][k - 1];
      rest
  }

  /** A lookup finds the theme at the first position holding the id. */
  lemma {:induction false} ThemeByIdFirst(themes: seq<Theme>, id: string, i: nat)
    requires i < |themes| && themes[i].id == id
    requires forall j :: 0 <= j < i ==> themes[j].id != id
    ensures ThemeById(themes, id) == Some(themes[i])
  {
    if i > 0 {
      ThemeByIdFirst(themes[1..], id, i - 1);
    }
  }

  /** With distinct ids, looking up a theme's id gives back that very theme. */
  lemma ThemeByIdUnique(themes: seq<Theme>, k: nat)
    requires k < |themes|
    requires forall a, b :: 0 <= a < b < |themes| ==> themes[a].id != themes[b].id
    ensures ThemeById(themes, themes[k].id) == Some(themes[k])
  {
    ThemeByIdFirst(themes, themes[k].id, k);
  }

  /** Each configured theme is found by its own id. */
  lemma ConfiguredThemeLookup(k: nat)
    requires k < |Themes|
    ensures ThemeById(Themes, Themes[k].id) == Some(Themes[k])
  {
    ThemeIdsDistinct();
    ThemeByIdUnique(Themes, k);
  }

  /** Only a non-empty id names a configured theme. */
  lemma KnownThemeIdNonEmpty(id: string)
    ensures ThemeById(Themes, id).Some? ==> id != ""
  {
    ThemeIdsDistinct();
  }

  /** `_get_theme`: a scan of `THEMES` that returns at the first match. */
  method GetTheme(themeId: string) returns (theme: Option<Theme>)
    ensures theme == ThemeById(Themes, themeId)
  {
    var themes := Themes;
    for i := 0 to |themes|
      invariant forall j :: 0 <= j < i ==> themes[j].id != themeId
    {
      if themes[i].id == themeId {
        ThemeByIdFirst(themes, themeId, i);
        return Some(themes[i]);
      }
    }
    return None;
  }

  // ---------------------------------------------------------------- stops

  predicate NotBlank(s: string)
  {
    Strip(s) != ""
  }

  /** `_get_place_photos`: the photo columns whose text is not blank, kept as they are. */
  function PlannerPhotos(p: Place): (r: seq<string>)
    ensures |r| <= 3
    ensures forall k :: 0 <= k < |r| ==> !IsBlank(r[k])
  {
    Filter([p.photo1, p.photo2, p.photo3], NotBlank)
  }

  /**
   * At most three photos, each one of the place's photo columns and none of them blank; a
   * column appears exactly when it is not blank.
   */
  lemma PlannerPhotosFacts(p: Place)
    ensures |PlannerPhotos(p)| <= 3
    ensures forall k :: 0 <= k < |PlannerPhotos(p)| ==>
      !IsBlank(PlannerPhotos(p)[k]) && PlannerPhotos(p)[k] in [p.photo1, p.photo2, p.photo3]
    ensures p.photo1 in PlannerPhotos(p) <==> !IsBlank(p.photo1)
    ensures p.photo2 in PlannerPhotos(p) <==> !IsBlank(p.photo2)
    ensures p.photo3 in PlannerPhotos(p) <==> !IsBlank(p.photo3)
  {
    var cols := [p.photo1, p.photo2, p.photo3];
    FilterMembership(cols, NotBlank, p.photo1);
    FilterMembership(cols, NotBlank, p.photo2);
    FilterMembership(cols, NotBlank, p.photo3);
    forall k | 0 <= k < |PlannerPhotos(p)| ensures PlannerPhotos(p)[k] in cols {
      FilterMembership(cols, NotBlank, PlannerPhotos(p)[k]);
    }
  }

  /** `_get_place_photos`, one column at a time. */
  method GetPlacePhotos(p: Place) returns (photos: seq<string>)
    ensures photos == PlannerPhotos(p)
  {
    var cols := [p.photo1, p.photo2, p.photo3];
    photos := [];
    for i := 0 to 3
      invariant photos == Filter(cols[..i], NotBlank)
    {
      assert cols[..i + 1][..i] == cols[..i];
      if Strip(cols[i]) != "" {
        photos := photos + [cols[i]];
      }
    }
    assert cols[..3] == cols;
  }

  /** `calculate_place_carbon` on a cleaned row, whose carbon columns are always present. */
  function CarbonOf(p: Place, distanceFromPrevKm: real): real
  {
    PlaceCarbon(CarbonFields(Some(p.activityCarbonScore), Some(p.visitorCarbonFactor)), distanceFromPrevKm)
  }

  /** The stop record built for place `p` reached by `leg`, numbered `number`. */
  function StopOf(number: nat, p: Place, leg: RouteLeg): (s: Stop)
    ensures s.stopNumber == number && s.placeId == p.placeId && s.name == p.name
    ensures s.distanceFromPrevKm == leg.fromPrev && s.distanceFromStartKm == leg.fromStart
    ensures |s.photos| <= 3 && (s.phone.Some? <==> p.hasPhone) && (s.website.Some? <==> p.hasWebsite)
  {
    Stop(number, p.placeId, p.name, p.keyword, p.address, p.lat, p.lng, leg.fromPrev, leg.fromStart,
      p.rating, Trunc(p.userRatingsTotal), p.tourismScore, CarbonOf(p, leg.fromPrev), PlannerPhotos(p),
      p.hasPhone, if p.hasPhone then Some(p.phone) else None,
      p.hasWebsite, if p.hasWebsite then Some(p.website) else None,
      if p.reviewSummary != "" then Some(p.reviewSummary) else None)
  }

  /**
   * Stop `s` describes place `p`: it is the record built for `p` over the leg the stop
   * reports, whatever its number (`BuiltFromFields` spells out what that means field by field).
   */
  predicate BuiltFrom(s: Stop, p: Place)
  {
    s == StopOf(s.stopNumber, p, RouteLeg(0, s.distanceFromPrevKm, s.distanceFromStartKm))
  }

  /**
   * A stop built from a place carries the place's fields, the user-rating count truncated to
   * an integer, the carbon of reaching it over its leg and the place's non-blank photos, and
   * has a phone, website and review summary exactly when the place has them.
   */
  lemma BuiltFromFields(s: Stop, p: Place)
    requires BuiltFrom(s, p)
    ensures s.placeId == p.placeId && s.name == p.name && s.keyword == p.keyword && s.address == p.address
    ensures s.lat == p.lat && s.lng == p.lng && s.rating == p.rating && s.tourismScore == p.tourismScore
    ensures s.userRatingsTotal == Trunc(p.userRatingsTotal)
    ensures s.carbonKg == CarbonOf(p, s.distanceFromPrevKm)
    ensures s.photos == PlannerPhotos(p)
    ensures s.hasPhone == p.hasPhone && (s.phone.Some? <==> p.hasPhone) && (s.phone.Some? ==> s.phone.value == p.phone)
    ensures s.hasWebsite == p.hasWebsite && (s.website.Some? <==> p.hasWebsite) && (s.website.Some? ==> s.website.value == p.website)
    ensures s.reviewSummary.Some? <==> p.reviewSummary != ""
    ensures s.reviewSummary.Some? ==> s.reviewSummary.value == p.reviewSummary
  {
  }

  /** The stops of a route, numbered from 1 in route order. */
  function StopsOf(selected: seq<Place>, legs: seq<RouteLeg>): (route: seq<Stop>)
    requires forall k :: 0 <= k < |legs| ==> legs[k].index < |selected|
    ensures |route| == |legs|
  {
    seq(|legs|, k requires 0 <= k < |legs| => StopOf(k + 1, selected[legs[k].index], legs[k]))
  }

  /** The optimised legs are the details of the optimised order, a valid route over the table. */
  lemma OptimizedLegs(acc: Accounting, dist: Haversine, setOrder: SetOrder, origin: Coord, pts: seq<Coord>)
    ensures var order := OptimizedOrder(acc, dist, setOrder, origin, pts);
      && ValidRoute(order, |pts|) && |order| == |pts|
      && OptimizedRoute(acc, dist, setOrder, origin, pts) == RouteDetails(dist, origin, pts, order)
  {
    NearestNeighborIsPermutation(dist, setOrder, origin, pts);
  }

  /** Every leg of the optimised route names a position of the table it was given. */
  lemma LegIndicesValid(acc: Accounting, dist: Haversine, setOrder: SetOrder, origin: Coord, pts: seq<Coord>)
    ensures var legs := OptimizedRoute(acc, dist, setOrder, origin, pts);
      forall k :: 0 <= k < |legs| ==> legs[k].index < |pts|
  {
    OptimizedLegs(acc, dist, setOrder, origin, pts);
    RouteDetailsFacts(dist, origin, pts, OptimizedOrder(acc, dist, setOrder, origin, pts));
  }

  /** The stops `_build_optimized_route` returns for the selected places. */
  function OptimizedStops(acc: Accounting, dist: Haversine, setOrder: SetOrder, start: Coord, selected: seq<Place>): seq<Stop>
  {
    LegIndicesValid(acc, dist, setOrder, start, Positions(selected));
    StopsOf(selected, OptimizedRoute(acc, dist, setOrder, start, Positions(selected)))
  }

  /** `_build_optimized_route`: optimise the order, then build one stop record per leg. */
  method BuildOptimizedRoute(acc: Accounting, dist: Haversine, setOrder: SetOrder, start: Coord, selected: seq<Place>) returns (route: seq<Stop>)
    ensures route == OptimizedStops(acc, dist, setOrder, start, selected)
  {
    var legs := OptimizeRoute(acc, dist, setOrder, start, Positions(selected));
    LegIndicesValid(acc, dist, setOrder, start, Positions(selected));
    route := StopsFromLegs(selected, legs);
  }

  /** The loop of `_build_optimized_route`: the stop record of each leg, numbered from 1. */
  method StopsFromLegs(selected: seq<Place>, legs: seq<RouteLeg>) returns (route: seq<Stop>)
    requires forall k :: 0 <= k < |legs| ==> legs[k].index < |selected|
    ensures route == StopsOf(selected, legs)
  {
    ghost var all := StopsOf(selected, legs);
    route := [];
    for k := 0 to |legs|
      invariant route == all[..k]
    {
      var leg := legs[k];
      var place := selected[leg.index];
      var carbonKg := PlaceCarbon(CarbonFields(Some(place.activityCarbonScore), Some(place.visitorCarbonFactor)), leg.fromPrev);
      var photos := GetPlacePhotos(place);
      var stop := Stop(k + 1, place.placeId, place.name, place.keyword, place.address, place.lat, place.lng,
        leg.fromPrev, leg.fromStart, place.rating, Trunc(place.userRatingsTotal), place.tourismScore, carbonKg, photos,
        place.hasPhone, if place.hasPhone then Some(place.phone) else None,
        place.hasWebsite, if place.hasWebsite then Some(place.website) else None,
        if place.reviewSummary != "" then Some(place.reviewSummary) else None);
      assert stop == StopOf(k + 1, place, leg) == all[k];
      assert all[..k + 1] == all[..k] + [all[k]];
      route := route + [stop];
    }
    assert all[..|legs|] == all;
  }

  /** The optimised legs visit the optimised order's positions, one leg per position. */
  lemma LegsFollowOrder(acc: Accounting, dist: Haversine, setOrder: SetOrder, origin: Coord, pts: seq<Coord>)
    ensures var order := OptimizedOrder(acc, dist, setOrder, origin, pts);
      var legs := OptimizedRoute(acc, dist, setOrder, origin, pts);
      && ValidRoute(order, |pts|) && |legs| == |order| == |pts|
      && forall k :: 0 <= k < |legs| ==> legs[k].index == order[k]
  {
    OptimizedLegs(acc, dist, setOrder, origin, pts);
    RouteDetailsFacts(dist, origin, pts, OptimizedOrder(acc, dist, setOrder, origin, pts));
  }

  /** A stop record built for a place carries the number it was given and describes that place. */
  lemma StopOfIsBuiltFrom(number: nat, p: Place, leg: RouteLeg)
    ensures StopOf(number, p, leg).stopNumber == number && BuiltFrom(StopOf(number, p, leg), p)
  {
  }

  /** Stops built over legs that visit `order` are numbered in turn and describe the places `order` names. */
  lemma StopsOfFollow(selected: seq<Place>, legs: seq<RouteLeg>, order: seq<nat>)
    requires |legs| == |order| && forall k :: 0 <= k < |legs| ==> legs[k].index == order[k] < |selected|
    ensures var route := StopsOf(selected, legs);
      forall k :: 0 <= k < |route| ==> route[k].stopNumber == k + 1 && BuiltFrom(route[k], selected[order[k]])
  {
    var route := StopsOf(selected, legs);
    forall k | 0 <= k < |route| ensures route[k].stopNumber == k + 1 && BuiltFrom(route[k], selected[order[k]]) {
      StopOfIsBuiltFrom(k + 1, selected[order[k]], legs[k]);
    }
  }

  /** Stop `k` is built from the place the optimised order visits `k`-th. */
  lemma StopsFollowOrder(acc: Accounting, dist: Haversine, setOrder: SetOrder, start: Coord, selected: seq<Place>)
    ensures var order := OptimizedOrder(acc, dist, setOrder, start, Positions(selected));
      var route := OptimizedStops(acc, dist, setOrder, start, selected);
      && ValidRoute(order, |selected|) && |route| == |order| == |selected|
      && forall k :: 0 <= k < |route| ==> route[k].stopNumber == k + 1 && BuiltFrom(route[k], selected[order[k]])
  {
    var pts := Positions(selected);
    LegsFollowOrder(acc, dist, setOrder, start, pts);
    StopsOfFollow(selected, OptimizedRoute(acc, dist, setOrder, start, pts), OptimizedOrder(acc, dist, setOrder, start, pts));
  }

  /**
   * The route has one stop per selected place, numbered 1, 2, ... in route order; every
   * stop describes a selected place and every selected place is described by a stop.
   */
  lemma OptimizedStopsFacts(acc: Accounting, dist: Haversine, setOrder: SetOrder, start: Coord, selected: seq<Place>)
    ensures var route := OptimizedStops(acc, dist, setOrder, start, selected);
      && |route| == |selected|
      && (forall k :: 0 <= k < |route| ==> route[k].stopNumber == k + 1)
      && (forall k :: 0 <= k < |route| ==> exists j :: 0 <= j < |selected| && BuiltFrom(route[k], selected[j]))
      && (forall j :: 0 <= j < |selected| ==> exists k :: 0 <= k < |route| && BuiltFrom(route[k], selected[j]))
  {
    var pts := Positions(selected);
    var order := OptimizedOrder(acc, dist, setOrder, start, pts);
    var route := OptimizedStops(acc, dist, setOrder, start, selected);
    StopsFollowOrder(acc, dist, setOrder, start, selected);
    OptimizedRouteFacts(acc, dist, setOrder, start, pts);
    forall j | 0 <= j < |selected| ensures exists k :: 0 <= k < |route| && BuiltFrom(route[k], selected[j]) {
      assert multiset(order)[j] == 1;
      var k :| 0 <= k < |order| && order[k] == j;
      assert BuiltFrom(route[k], selected[order[k]]);
    }
  }

  /** The legs' distances, read back from the stops. */
  function PrevDistances(route: seq<Stop>): (ds: seq<real>)
    ensures |ds| == |route| && forall k :: 0 <= k < |route| ==> ds[k] == route[k].distanceFromPrevKm
  {
    seq(|route|, k requires 0 <= k < |route| => route[k].distanceFromPrevKm)
  }

  /** The stops report their legs' distances and stand at the positions their legs name. */
  lemma StopsCarryLegs(selected: seq<Place>, legs: seq<RouteLeg>)
    requires forall k :: 0 <= k < |legs| ==> legs[k].index < |selected|
    ensures var route := StopsOf(selected, legs);
      && PrevDistances(route) == FromPrevs(legs)
      && (forall k :: 0 <= k < |route| ==> route[k].distanceFromStartKm == legs[k].fromStart)
      && (forall k :: 0 <= k < |route| ==> Coord(route[k].lat, route[k].lng) == Position(selected[legs[k].index]))
  {
    var route := StopsOf(selected, legs);
    forall k | 0 <= k < |route|
      ensures route[k].distanceFromPrevKm == legs[k].fromPrev && route[k].distanceFromStartKm == legs[k].fromStart
      ensures Coord(route[k].lat, route[k].lng) == Position(selected[legs[k].index])
    {
      assert route[k] == StopOf(k + 1, selected[legs[k].index], legs[k]);
    }
  }

  /** The optimised legs start at the origin and accumulate their distances, which never decrease. */
  lemma OptimizedLegDistances(acc: Accounting, dist: Haversine, setOrder: SetOrder, origin: Coord, pts: seq<Coord>)
    ensures var legs := OptimizedRoute(acc, dist, setOrder, origin, pts);
      && (forall k :: 0 <= k < |legs| ==> legs[k].index < |pts|)
      && (|legs| > 0 ==> legs[0].fromPrev == dist(origin, pts[legs[0].index]) == legs[0].fromStart)
      && (forall k :: 0 <= k < |legs| ==> legs[k].fromStart == Sum(FromPrevs(legs)[..k + 1]))
      && (forall a, b :: 0 <= a <= b < |legs| ==> legs[a].fromStart <= legs[b].fromStart)
  {
    OptimizedLegs(acc, dist, setOrder, origin, pts);
    LegDistances(dist, origin, pts, OptimizedOrder(acc, dist, setOrder, origin, pts), OptimizedRoute(acc, dist, setOrder, origin, pts));
  }

  /** The legs of any valid route start at the origin and accumulate their distances, which never decrease. */
  lemma LegDistances(dist: Haversine, origin: Coord, pts: seq<Coord>, order: seq<nat>, legs: seq<RouteLeg>)
    requires ValidRoute(order, |pts|) && legs == RouteDetails(dist, origin, pts, order)
    ensures forall k :: 0 <= k < |legs| ==> legs[k].index < |pts|
    ensures |legs| > 0 ==> legs[0].fromPrev == dist(origin, pts[legs[0].index]) == legs[0].fromStart
    ensures forall k :: 0 <= k < |legs| ==> legs[k].fromStart == Sum(FromPrevs(legs)[..k + 1])
    ensures forall a, b :: 0 <= a <= b < |legs| ==> legs[a].fromStart <= legs[b].fromStart
  {
    RouteDetailsFacts(dist, origin, pts, order);
    RouteDetailsMonotone(dist, origin, pts, order);
  }

  /**
   * The first stop's leg starts at the start point; each stop's distance from the start is
   * the sum of the legs up to it, so it never decreases along the route.
   */
  lemma OptimizedStopsDistances(acc: Accounting, dist: Haversine, setOrder: SetOrder, start: Coord, selected: seq<Place>)
    ensures var route := OptimizedStops(acc, dist, setOrder, start, selected);
      && (|route| > 0 ==> route[0].distanceFromPrevKm == route[0].distanceFromStartKm == dist(start, Coord(route[0].lat, route[0].lng)))
      && (forall k :: 0 <= k < |route| ==> route[k].distanceFromStartKm == Sum(PrevDistances(route)[..k + 1]))
      && (forall a, b :: 0 <= a <= b < |route| ==> route[a].distanceFromStartKm <= route[b].distanceFromStartKm)
  {
    var pts := Positions(selected);
    var legs := OptimizedRoute(acc, dist, setOrder, start, pts);
    OptimizedLegDistances(acc, dist, setOrder, start, pts);
    var route := StopsOf(selected, legs);
    assert route == OptimizedStops(acc, dist, setOrder, start, selected);
    StopsCarryLegs(selected, legs);
    if |route| > 0 {
      assert route[0].distanceFromPrevKm == PrevDistances(route)[0] == legs[0].fromPrev;
      assert Coord(route[0].lat, route[0].lng) == pts[legs[0].index];
    }
  }

  // ---------------------------------------------------------------- response

  /** The `summary` block of the response. */
  datatype ResponseSummary = ResponseSummary(
    totalStops: nat, totalDistanceKm: real, estimatedTimeHours: real, totalCarbonKg: real,
    ecoScore: real, carbonReductionPercent: real,
    narrative: TripSummary, compact: CompactSummary, directions: seq<DirectionStep>)

  /** The response: the `theme` and `place_name` keys are present only when given non-empty. */
  datatype TripResponse = TripResponse(
    tripId: string, start: Coord, mode: string, summary: ResponseSummary, route: seq<Stop>,
    theme: Option<string>, placeName: Option<string>)

  function TourismScores(route: seq<Stop>): (xs: seq<real>)
    ensures |xs| == |route| && forall k :: 0 <= k < |route| ==> xs[k] == route[k].tourismScore
  {
    seq(|route|, k requires 0 <= k < |route| => route[k].tourismScore)
  }

  function Ratings(route: seq<Stop>): (xs: seq<real>)
    ensures |xs| == |route| && forall k :: 0 <= k < |route| ==> xs[k] == route[k].rating
  {
    seq(|route|, k requires 0 <= k < |route| => route[k].rating)
  }

  /** The eco score of a non-empty route, from its unrounded totals and means. */
  function RouteEcoScore(route: seq<Stop>): real
    requires route != []
  {
    var totalDistance := route[|route| - 1].distanceFromStartKm;
    EcoScore(Sum(Carbons(route)), Mean(TourismScores(route)), Mean(Ratings(route)),
      CalculateRouteEfficiency(totalDistance, |route|))
  }

  /** `_build_trip_response` */
  function TripResponseOf(key: CarbonKey, tripId: string, start: Coord, mode: string, route: seq<Stop>,
    theme: Option<string>, placeName: Option<string>): (r: Result<TripResponse, string>)
    ensures r.Failure? <==> route == []
    ensures r.Failure? ==> r.error == "No route generated"
    ensures r.Success? ==> r.value.route == route && r.value.mode == mode && r.value.tripId == tripId && r.value.start == start
  {
    if route == [] then Failure("No route generated")
    else
      var totalDistance := route[|route| - 1].distanceFromStartKm;
      var totalCarbon := Sum(Carbons(route));
      var ecoScore := RouteEcoScore(route);
      var summary := ResponseSummary(|route|, Round2(totalDistance), Round2(EstimateTravelTime(totalDistance)),
        Round2(totalCarbon), Round1(ecoScore), Round1(CarbonReductionPercent(totalCarbon)),
        TripSummaryOf(key, route, totalDistance, totalCarbon, ecoScore, theme),
        GenerateCompactSummary(route, totalDistance, totalCarbon, ecoScore),
        RouteDirections(route));
      Success(TripResponse(tripId, start, mode, summary, route, ShownTheme(theme), ShownTheme(placeName)))
  }

  /** `_build_trip_response`, calling the narrator for the texts. */
  method BuildTripResponse(key: CarbonKey, tripId: string, start: Coord, mode: string, route: seq<Stop>,
    theme: Option<string>, placeName: Option<string>) returns (r: Result<TripResponse, string>)
    ensures r == TripResponseOf(key, tripId, start, mode, route, theme, placeName)
  {
    if route == [] {
      return Failure("No route generated");
    }
    var totalStops := |route|;
    var totalDistance := route[|route| - 1].distanceFromStartKm;
    var estimatedTime := EstimateTravelTime(totalDistance);
    var totalCarbon := Sum(Carbons(route));
    var routeEfficiency := CalculateRouteEfficiency(totalDistance, totalStops);
    var ecoScore := EcoScore(totalCarbon, Mean(TourismScores(route)), Mean(Ratings(route)), routeEfficiency);
    var reduction := CarbonReductionPercent(totalCarbon);
    var narrative := GenerateTripSummary(key, route, totalDistance, totalCarbon, ecoScore, theme);
    var compact := GenerateCompactSummary(route, totalDistance, totalCarbon, ecoScore);
    var directions := GenerateRouteDirections(route);
    var summary := ResponseSummary(totalStops, Round2(totalDistance), Round2(estimatedTime), Round2(totalCarbon),
      Round1(ecoScore), Round1(reduction), narrative, compact, directions);
    r := Success(TripResponse(tripId, start, mode, summary, route, ShownTheme(theme), ShownTheme(placeName)));
  }

  /**
   * The response fails exactly for an empty route. Otherwise it counts the stops, reports
   * the last stop's distance from the start and the summed stop carbon to within rounding,
   * keeps the eco score on 0-10 and the reduction on 0-100, narrates every stop, gives one
   * direction per stop, and carries the theme only when one was given.
   */
  lemma TripResponseFacts(key: CarbonKey, tripId: string, start: Coord, mode: string, route: seq<Stop>,
    theme: Option<string>, placeName: Option<string>)
    ensures TripResponseOf(key, tripId, start, mode, route, theme, placeName).Failure? <==> route == []
    ensures var r := TripResponseOf(key, tripId, start, mode, route, theme, placeName);
      r.Success? ==>
        && r.value.route == route
        && r.value.summary.totalStops == |route|
        && -0.005 <= r.value.summary.totalDistanceKm - route[|route| - 1].distanceFromStartKm <= 0.005
        && -0.005 <= r.value.summary.totalCarbonKg - Sum(Carbons(route)) <= 0.005
        && 0.0 <= r.value.summary.ecoScore <= 10.0
        && 0.0 <= r.value.summary.carbonReductionPercent <= 100.0
        && r.value.summary.narrative.Narrative? && |r.value.summary.narrative.lines| == 11 + 2 * |route|
        && r.value.summary.compact.Compact? && r.value.summary.compact.placeCount == |route|
        && |r.value.summary.directions| == |route|
        && (r.value.theme.Some? <==> theme.Some? && theme.value != "")
  {
    if route != [] {
      var totalDistance := route[|route| - 1].distanceFromStartKm;
      var totalCarbon := Sum(Carbons(route));
      var ecoScore := RouteEcoScore(route);
      TripSummaryFacts(key, route, totalDistance, totalCarbon, ecoScore, theme);
      Round1Within(ecoScore, 0, 100);
      Round1Within(CarbonReductionPercent(totalCarbon), 0, 1000);
    }
  }

  /** A response carries the route, the mode and the shown theme and place name it was given. */
  lemma ResponseCarriesRoute(key: CarbonKey, tripId: string, start: Coord, mode: string, route: seq<Stop>,
    theme: Option<string>, placeName: Option<string>)
    ensures var r := TripResponseOf(key, tripId, start, mode, route, theme, placeName);
      && (r.Success? <==> route != [])
      && (r.Success? ==>
            r.value.route == route && r.value.mode == mode
            && r.value.theme == ShownTheme(theme) && r.value.placeName == ShownTheme(placeName))
  {
  }

  // ---------------------------------------------------------------- planning

  /** The theme mode's candidates: within the radius, then of the theme's categories. */
  function ThemeCandidates(dist: Haversine, table: seq<Place>, start: Coord, maxKm: real, keywords: seq<string>): seq<Candidate>
  {
    KeywordFilter(FilterByDistance(dist, table, start, maxKm), keywords)
  }

  /** The stops for the `numStops` best candidates under `scores`. */
  function TopStops(acc: Accounting, dist: Haversine, setOrder: SetOrder, start: Coord, cands: seq<Candidate>, scores: seq<real>, numStops: nat): seq<Stop>
    requires |scores| == |cands|
  {
    SelectTopDistinct(scores, numStops);
    OptimizedStops(acc, dist, setOrder, start, Pick(cands, SelectTop(scores, numStops)))
  }

  /** The theme mode's route: its candidates ranked by the weighted score, the best `numStops` of them optimised. */
  function ThemeRoute(acc: Accounting, dist: Haversine, setOrder: SetOrder, table: seq<Place>, start: Coord, maxKm: real, keywords: seq<string>, numStops: nat): seq<Stop>
  {
    var cands := ThemeCandidates(dist, table, start, maxKm, keywords);
    TopStops(acc, dist, setOrder, start, cands, CalculateScores(cands), numStops)
  }

  /** `_plan_trip_by_theme` */
  function ThemePlan(acc: Accounting, key: CarbonKey, dist: Haversine, setOrder: SetOrder, df: Option<seq<Place>>, start: Coord,
    themeId: string, numStops: nat, maxKm: real, tripId: string): (r: Result<TripResponse, string>)
    ensures ThemeById(Themes, themeId).None? ==> r == Failure("Theme not found: " + themeId)
    ensures r.Success? ==> r.value.mode == "theme" && r.value.tripId == tripId
  {
    var theme := ThemeById(Themes, themeId);
    if theme.None? then Failure("Theme not found: " + themeId)
    else if df.None? then Failure(NotLoaded + ". Call load() first.")
    else
      var cands := ThemeCandidates(dist, df.value, start, maxKm, theme.value.keywords);
      if cands == [] then Failure("No places found matching criteria")
      else
        TripResponseOf(key, tripId, start, "theme", ThemeRoute(acc, dist, setOrder, df.value, start, maxKm, theme.value.keywords, numStops),
          Some(themeId), None)
  }

  /** The rows other than the target place, by id. */
  function Others(table: seq<Place>, target: Place): seq<Place>
  {
    Filter(table, (p: Place) => p.placeId != target.placeId)
  }

  /** The place-name mode's route: the other places within the radius ranked by similarity to the target. */
  function SimilarRoute(acc: Accounting, dist: Haversine, setOrder: SetOrder, table: seq<Place>, target: Place, start: Coord, maxKm: real, numStops: nat): seq<Stop>
  {
    var cands := FilterByDistance(dist, Others(table, target), start, maxKm);
    TopStops(acc, dist, setOrder, start, cands, SimilarityScores(cands, target), numStops)
  }

  /** `_plan_trip_by_place_name` */
  function PlaceNamePlan(acc: Accounting, key: CarbonKey, dist: Haversine, setOrder: SetOrder, re: RegexSearch, df: Option<seq<Place>>, start: Coord,
    placeName: string, numStops: nat, maxKm: real, tripId: string): (r: Result<TripResponse, string>)
    ensures df.None? ==> r == Failure(NotLoaded)
    ensures r.Success? ==> r.value.mode == "place_name" && r.value.tripId == tripId
  {
    if df.None? then Failure(NotLoaded)
    else
      var search := SearchResults(re, df.value, placeName, 1);
      if search.Failure? then Failure(search.error)
      else if search.value == [] then Failure("Place not found: " + placeName)
      else
        var target := search.value[0];
        var cands := FilterByDistance(dist, Others(df.value, target), start, maxKm);
        if cands == [] then Failure("No similar places found")
        else
          TripResponseOf(key, tripId, start, "place_name", SimilarRoute(acc, dist, setOrder, df.value, target, start, maxKm, numStops),
            None, Some(target.name))
  }

  /** `plan_trip`: dispatch on the mode. */
  function Plan(acc: Accounting, key: CarbonKey, dist: Haversine, setOrder: SetOrder, re: RegexSearch, df: Option<seq<Place>>, start: Coord,
    mode: string, value: string, numStops: nat, maxKm: real, tripId: string): (r: Result<TripResponse, string>)
    ensures mode != "theme" && mode != "place_name" ==> r == Failure("Invalid mode: " + mode)
    ensures r.Success? ==> r.value.mode == mode && r.value.tripId == tripId
  {
    if mode == "theme" then ThemePlan(acc, key, dist, setOrder, df, start, value, numStops, maxKm, tripId)
    else if mode == "place_name" then PlaceNamePlan(acc, key, dist, setOrder, re, df, start, value, numStops, maxKm, tripId)
    else Failure("Invalid mode: " + mode)
  }

  /** The stops are as many as the candidates, up to `numStops`, and each describes one of them. */
  predicate StopsFromCandidates(route: seq<Stop>, cands: seq<Candidate>, numStops: nat)
  {
    && |route| == MinInt(numStops, |cands|)
    && forall k :: 0 <= k < |route| ==> exists i :: 0 <= i < |cands| && BuiltFrom(route[k], cands[i].place)
  }

  /**
   * The best `min(numStops, |cands|)` candidates become that many stops, each describing
   * one of the candidates.
   */
  lemma TopStopsFacts(acc: Accounting, dist: Haversine, setOrder: SetOrder, start: Coord, cands: seq<Candidate>, scores: seq<real>, numStops: nat)
    requires |scores| == |cands|
    ensures StopsFromCandidates(TopStops(acc, dist, setOrder, start, cands, scores, numStops), cands, numStops)
  {
    SelectTopDistinct(scores, numStops);
    var rows := SelectTop(scores, numStops);
    var selected := Pick(cands, rows);
    var route := TopStops(acc, dist, setOrder, start, cands, scores, numStops);
    var order := OptimizedOrder(acc, dist, setOrder, start, Positions(selected));
    StopsFollowOrder(acc, dist, setOrder, start, selected);
    forall k | 0 <= k < |route| ensures exists i :: 0 <= i < |cands| && BuiltFrom(route[k], cands[i].place) {
      assert BuiltFrom(route[k], cands[rows[order[k]]].place);
    }
  }

  /**
   * A theme plan fails exactly when the theme is unknown, the table is not loaded, or no
   * place of the theme lies within the radius; otherwise it answers with the theme route in
   * mode "theme", naming the theme.
   */
  lemma ThemePlanOutcome(acc: Accounting, key: CarbonKey, dist: Haversine, setOrder: SetOrder, df: Option<seq<Place>>, start: Coord,
    themeId: string, numStops: nat, maxKm: real, tripId: string)
    requires numStops >= 1
    ensures ThemePlan(acc, key, dist, setOrder, df, start, themeId, numStops, maxKm, tripId).Success? <==>
      && ThemeById(Themes, themeId).Some? && df.Some?
      && ThemeCandidates(dist, df.value, start, maxKm, ThemeById(Themes, themeId).value.keywords) != []
    ensures var r := ThemePlan(acc, key, dist, setOrder, df, start, themeId, numStops, maxKm, tripId);
      r.Success? ==>
        && r.value.route == ThemeRoute(acc, dist, setOrder, df.value, start, maxKm, ThemeById(Themes, themeId).value.keywords, numStops)
        && r.value.mode == "theme" && r.value.theme == Some(themeId) && r.value.placeName == None
  {
    var theme := ThemeById(Themes, themeId);
    if theme.Some? && df.Some? {
      var keywords := theme.value.keywords;
      var cands := ThemeCandidates(dist, df.value, start, maxKm, keywords);
      if cands != [] {
        KnownThemeIdNonEmpty(themeId);
        ThemeRouteNonEmpty(acc, dist, setOrder, df.value, start, maxKm, keywords, numStops);
        ResponseCarriesRoute(key, tripId, start, "theme", ThemeRoute(acc, dist, setOrder, df.value, start, maxKm, keywords, numStops), Some(themeId), None);
      }
    }
  }

  /**
   * With at least one candidate, the theme route has between one and `numStops` stops, as
   * many as there are candidates up to `numStops`; every stop describes a row of the table
   * within the radius of the start, and when the theme lists categories, every stop is of
   * one of them.
   */
  lemma ThemeRouteFacts(acc: Accounting, dist: Haversine, setOrder: SetOrder, table: seq<Place>, start: Coord, maxKm: real, keywords: seq<string>, numStops: nat)
    requires numStops >= 1 && ThemeCandidates(dist, table, start, maxKm, keywords) != []
    ensures var route := ThemeRoute(acc, dist, setOrder, table, start, maxKm, keywords, numStops);
      && 1 <= |route| <= numStops
      && |route| == MinInt(numStops, |ThemeCandidates(dist, table, start, maxKm, keywords)|)
      && (forall k :: 0 <= k < |route| ==> IsWithinRadius(dist, start, Coord(route[k].lat, route[k].lng), maxKm))
      && (forall k :: 0 <= k < |route| ==> exists j :: 0 <= j < |table| && BuiltFrom(route[k], table[j]))
      && (keywords != [] ==> forall k :: 0 <= k < |route| ==> route[k].keyword in keywords)
  {
    ThemeRouteShape(acc, dist, setOrder, table, start, maxKm, keywords, numStops);
    ThemeStopsFacts(dist, table, start, maxKm, keywords, numStops, ThemeRoute(acc, dist, setOrder, table, start, maxKm, keywords, numStops));
  }

  /** With a candidate and room for a stop, the theme route is not empty. */
  lemma ThemeRouteNonEmpty(acc: Accounting, dist: Haversine, setOrder: SetOrder, table: seq<Place>, start: Coord, maxKm: real, keywords: seq<string>, numStops: nat)
    requires numStops >= 1 && ThemeCandidates(dist, table, start, maxKm, keywords) != []
    ensures ThemeRoute(acc, dist, setOrder, table, start, maxKm, keywords, numStops) != []
  {
    ThemeRouteShape(acc, dist, setOrder, table, start, maxKm, keywords, numStops);
  }

  /** The theme route's stops are as many as its candidates, up to `numStops`, and each describes one of them. */
  lemma ThemeRouteShape(acc: Accounting, dist: Haversine, setOrder: SetOrder, table: seq<Place>, start: Coord, maxKm: real, keywords: seq<string>, numStops: nat)
    ensures var cands := ThemeCandidates(dist, table, start, maxKm, keywords);
      StopsFromCandidates(ThemeRoute(acc, dist, setOrder, table, start, maxKm, keywords, numStops), cands, numStops)
  {
    var cands := ThemeCandidates(dist, table, start, maxKm, keywords);
    TopStopsFacts(acc, dist, setOrder, start, cands, CalculateScores(cands), numStops);
  }

  /** Stops built from theme candidates lie within the radius, come from the table and are of the theme's categories. */
  lemma ThemeStopsFacts(dist: Haversine, table: seq<Place>, start: Coord, maxKm: real, keywords: seq<string>, numStops: nat, route: seq<Stop>)
    requires numStops >= 1 && ThemeCandidates(dist, table, start, maxKm, keywords) != []
    requires StopsFromCandidates(route, ThemeCandidates(dist, table, start, maxKm, keywords), numStops)
    ensures
      && 1 <= |route| <= numStops
      && |route| == MinInt(numStops, |ThemeCandidates(dist, table, start, maxKm, keywords)|)
      && (forall k :: 0 <= k < |route| ==> IsWithinRadius(dist, start, Coord(route[k].lat, route[k].lng), maxKm))
      && (forall k :: 0 <= k < |route| ==> exists j :: 0 <= j < |table| && BuiltFrom(route[k], table[j]))
      && (keywords != [] ==> forall k :: 0 <= k < |route| ==> route[k].keyword in keywords)
  {
    var cands := ThemeCandidates(dist, table, start, maxKm, keywords);
    forall k | 0 <= k < |route|
      ensures IsWithinRadius(dist, start, Coord(route[k].lat, route[k].lng), maxKm)
      ensures keywords != [] ==> route[k].keyword in keywords
    {
      var i :| 0 <= i < |cands| && BuiltFrom(route[k], cands[i].place);
      ThemeStopFacts(dist, table, start, maxKm, keywords, cands[i], route[k]);
    }
    forall k | 0 <= k < |route| ensures exists j :: 0 <= j < |table| && BuiltFrom(route[k], table[j]) {
      var i :| 0 <= i < |cands| && BuiltFrom(route[k], cands[i].place);
      ThemeStopFacts(dist, table, start, maxKm, keywords, cands[i], route[k]);
    }
  }

  /** A stop built from a theme candidate lies within the radius, comes from the table and is of the theme's categories. */
  lemma ThemeStopFacts(dist: Haversine, table: seq<Place>, start: Coord, maxKm: real, keywords: seq<string>, c: Candidate, stop: Stop)
    requires c in ThemeCandidates(dist, table, start, maxKm, keywords) && BuiltFrom(stop, c.place)
    ensures IsWithinRadius(dist, start, Coord(stop.lat, stop.lng), maxKm)
    ensures exists j :: 0 <= j < |table| && BuiltFrom(stop, table[j])
    ensures keywords != [] ==> stop.keyword in keywords
  {
    var near := FilterByDistance(dist, table, start, maxKm);
    BuiltFromFields(stop, c.place);
    KeywordFilterMembership(near, keywords, c);
    FilterByDistanceMembership(dist, table, start, maxKm, c);
    assert Coord(stop.lat, stop.lng) == Position(c.place);
    var j :| 0 <= j < |table| && table[j] == c.place;
  }

  /**
   * A place-name plan fails, in this order, when the table is not loaded, when the query is
   * not a valid pattern, when no name matches, or when no other place lies within the
   * radius, each with the source's message; otherwise it answers with the route of places
   * similar to the first match, in mode "place_name".
   */
  lemma PlaceNamePlanOutcome(acc: Accounting, key: CarbonKey, dist: Haversine, setOrder: SetOrder, re: RegexSearch, df: Option<seq<Place>>, start: Coord,
    placeName: string, numStops: nat, maxKm: real, tripId: string)
    requires numStops >= 1
    ensures var r := PlaceNamePlan(acc, key, dist, setOrder, re, df, start, placeName, numStops, maxKm, tripId);
      && (df.None? ==> r == Failure(NotLoaded))
      && (df.Some? && re(NamePattern(placeName)).Failure? ==> r == Failure(re(NamePattern(placeName)).error))
    ensures var r := PlaceNamePlan(acc, key, dist, setOrder, re, df, start, placeName, numStops, maxKm, tripId);
      df.Some? && re(NamePattern(placeName)).Success? ==>
        var found := SearchResults(re, df.value, placeName, 1).value;
        && (found == [] ==> r == Failure("Place not found: " + placeName))
        && (found != [] && FilterByDistance(dist, Others(df.value, found[0]), start, maxKm) == [] ==> r == Failure("No similar places found"))
    ensures PlaceNamePlan(acc, key, dist, setOrder, re, df, start, placeName, numStops, maxKm, tripId).Success? <==>
      && df.Some? && SearchResults(re, df.value, placeName, 1).Success?
      && SearchResults(re, df.value, placeName, 1).value != []
      && FilterByDistance(dist, Others(df.value, SearchResults(re, df.value, placeName, 1).value[0]), start, maxKm) != []
    ensures var r := PlaceNamePlan(acc, key, dist, setOrder, re, df, start, placeName, numStops, maxKm, tripId);
      r.Success? ==>
        var target := SearchResults(re, df.value, placeName, 1).value[0];
        && r.value.route == SimilarRoute(acc, dist, setOrder, df.value, target, start, maxKm, numStops)
        && r.value.mode == "place_name" && r.value.theme == None
        && r.value.placeName == (if target.name == "" then None else Some(target.name))
  {
    if df.Some? {
      var search := SearchResults(re, df.value, placeName, 1);
      if search.Success? && search.value != [] {
        var target := search.value[0];
        var cands := FilterByDistance(dist, Others(df.value, target), start, maxKm);
        if cands != [] {
          SimilarRouteNonEmpty(acc, dist, setOrder, df.value, target, start, maxKm, numStops);
          ResponseCarriesRoute(key, tripId, start, "place_name", SimilarRoute(acc, dist, setOrder, df.value, target, start, maxKm, numStops), None, Some(target.name));
        }
      }
    }
  }

  /**
   * With at least one candidate, the place-name route has between one and `numStops` stops;
   * every stop describes a row of the table within the radius of the start, and none of
   * them is the target place itself (by id).
   */
  lemma SimilarRouteFacts(acc: Accounting, dist: Haversine, setOrder: SetOrder, table: seq<Place>, target: Place, start: Coord, maxKm: real, numStops: nat)
    requires numStops >= 1 && FilterByDistance(dist, Others(table, target), start, maxKm) != []
    ensures var route := SimilarRoute(acc, dist, setOrder, table, target, start, maxKm, numStops);
      && 1 <= |route| <= numStops
      && |route| == MinInt(numStops, |FilterByDistance(dist, Others(table, target), start, maxKm)|)
      && (forall k :: 0 <= k < |route| ==> IsWithinRadius(dist, start, Coord(route[k].lat, route[k].lng), maxKm))
      && (forall k :: 0 <= k < |route| ==> exists j :: 0 <= j < |table| && BuiltFrom(route[k], table[j]))
      && (forall k :: 0 <= k < |route| ==> route[k].placeId != target.placeId)
  {
    SimilarRouteShape(acc, dist, setOrder, table, target, start, maxKm, numStops);
    SimilarStopsFacts(dist, table, target, start, maxKm, numStops, SimilarRoute(acc, dist, setOrder, table, target, start, maxKm, numStops));
  }

  /** With a candidate and room for a stop, the place-name route is not empty. */
  lemma SimilarRouteNonEmpty(acc: Accounting, dist: Haversine, setOrder: SetOrder, table: seq<Place>, target: Place, start: Coord, maxKm: real, numStops: nat)
    requires numStops >= 1 && FilterByDistance(dist, Others(table, target), start, maxKm) != []
    ensures SimilarRoute(acc, dist, setOrder, table, target, start, maxKm, numStops) != []
  {
    SimilarRouteShape(acc, dist, setOrder, table, target, start, maxKm, numStops);
  }

  /** The place-name route's stops are as many as its candidates, up to `numStops`, and each describes one of them. */
  lemma SimilarRouteShape(acc: Accounting, dist: Haversine, setOrder: SetOrder, table: seq<Place>, target: Place, start: Coord, maxKm: real, numStops: nat)
    ensures var cands := FilterByDistance(dist, Others(table, target), start, maxKm);
      StopsFromCandidates(SimilarRoute(acc, dist, setOrder, table, target, start, maxKm, numStops), cands, numStops)
  {
    var cands := FilterByDistance(dist, Others(table, target), start, maxKm);
    TopStopsFacts(acc, dist, setOrder, start, cands, SimilarityScores(cands, target), numStops);
  }

  /** Stops built from candidates similar to `target` lie within the radius, come from the table and are not the target. */
  lemma SimilarStopsFacts(dist: Haversine, table: seq<Place>, target: Place, start: Coord, maxKm: real, numStops: nat, route: seq<Stop>)
    requires numStops >= 1 && FilterByDistance(dist, Others(table, target), start, maxKm) != []
    requires StopsFromCandidates(route, FilterByDistance(dist, Others(table, target), start, maxKm), numStops)
    ensures
      && 1 <= |route| <= numStops
      && |route| == MinInt(numStops, |FilterByDistance(dist, Others(table, target), start, maxKm)|)
      && (forall k :: 0 <= k < |route| ==> IsWithinRadius(dist, start, Coord(route[k].lat, route[k].lng), maxKm))
      && (forall k :: 0 <= k < |route| ==> exists j :: 0 <= j < |table| && BuiltFrom(route[k], table[j]))
      && (forall k :: 0 <= k < |route| ==> route[k].placeId != target.placeId)
  {
    var cands := FilterByDistance(dist, Others(table, target), start, maxKm);
    forall k | 0 <= k < |route|
      ensures IsWithinRadius(dist, start, Coord(route[k].lat, route[k].lng), maxKm)
      ensures route[k].placeId != target.placeId
    {
      var i :| 0 <= i < |cands| && BuiltFrom(route[k], cands[i].place);
      SimilarStopFacts(dist, table, target, start, maxKm, cands[i], route[k]);
    }
    forall k | 0 <= k < |route| ensures exists j :: 0 <= j < |table| && BuiltFrom(route[k], table[j]) {
      var i :| 0 <= i < |cands| && BuiltFrom(route[k], cands[i].place);
      SimilarStopFacts(dist, table, target, start, maxKm, cands[i], route[k]);
    }
  }

  /** A stop built from a candidate similar to `target` lies within the radius, comes from the table and is not the target. */
  lemma SimilarStopFacts(dist: Haversine, table: seq<Place>, target: Place, start: Coord, maxKm: real, c: Candidate, stop: Stop)
    requires c in FilterByDistance(dist, Others(table, target), start, maxKm) && BuiltFrom(stop, c.place)
    ensures IsWithinRadius(dist, start, Coord(stop.lat, stop.lng), maxKm)
    ensures exists j :: 0 <= j < |table| && BuiltFrom(stop, table[j])
    ensures stop.placeId != target.placeId
  {
    BuiltFromFields(stop, c.place);
    FilterByDistanceMembership(dist, Others(table, target), start, maxKm, c);
    FilterMembership(table, (p: Place) => p.placeId != target.placeId, c.place);
    assert Coord(stop.lat, stop.lng) == Position(c.place);
    var j :| 0 <= j < |table| && table[j] == c.place;
  }

  /** A mode other than "theme" and "place_name" is refused. */
  lemma PlanModes(acc: Accounting, key: CarbonKey, dist: Haversine, setOrder: SetOrder, re: RegexSearch, df: Option<seq<Place>>, start: Coord,
    mode: string, value: string, numStops: nat, maxKm: real, tripId: string)
    ensures mode != "theme" && mode != "place_name" ==>
      Plan(acc, key, dist, setOrder, re, df, start, mode, value, numStops, maxKm, tripId).Failure?
    ensures var r := Plan(acc, key, dist, setOrder, re, df, start, mode, value, numStops, maxKm, tripId);
      r.Success? ==> r.value.mode == mode && (mode == "theme" || mode == "place_name")
  {
    var r := Plan(acc, key, dist, setOrder, re, df, start, mode, value, numStops, maxKm, tripId);
    if r.Success? && mode == "theme" {
      var keywords := ThemeById(Themes, value).value.keywords;
      ResponseCarriesRoute(key, tripId, start, mode, ThemeRoute(acc, dist, setOrder, df.value, start, maxKm, keywords, numStops), Some(value), None);
    } else if r.Success? && mode == "place_name" {
      var target := SearchResults(re, df.value, value, 1).value[0];
      ResponseCarriesRoute(key, tripId, start, mode, SimilarRoute(acc, dist, setOrder, df.value, target, start, maxKm, numStops), None, Some(target.name));
    }
  }

  /** The planner service, holding the data loader it reads. */
  class TripPlanner {
    var dataLoader: DataLoader

    constructor(loader: DataLoader)
      ensures dataLoader == loader
    {
      dataLoader := loader;
    }

    /** `plan_trip`: the request schema admits between 1 and 20 stops. */
    method PlanTrip(acc: Accounting, key: CarbonKey, dist: Haversine, setOrder: SetOrder, re: RegexSearch, startLat: real, startLng: real,
      mode: string, value: string, numStops: int, maxDistanceKm: real, tripId: string)
      returns (r: Result<TripResponse, string>)
      requires 1 <= numStops
      ensures r == Plan(acc, key, dist, setOrder, re, dataLoader.df, Coord(startLat, startLng), mode, value, numStops, maxDistanceKm, tripId)
    {
      if mode == "theme" {
        r := PlanTripByTheme(acc, key, dist, setOrder, startLat, startLng, value, numStops, maxDistanceKm, tripId);
      } else if mode == "place_name" {
        r := PlanTripByPlaceName(acc, key, dist, setOrder, re, startLat, startLng, value, numStops, maxDistanceKm, tripId);
      } else {
        r := Failure("Invalid mode: " + mode);
      }
    }

    /** `_plan_trip_by_theme` */
    method PlanTripByTheme(acc: Accounting, key: CarbonKey, dist: Haversine, setOrder: SetOrder, startLat: real, startLng: real,
      themeId: string, numStops: nat, maxDistanceKm: real, tripId: string)
      returns (r: Result<TripResponse, string>)
      ensures r == ThemePlan(acc, key, dist, setOrder, dataLoader.df, Coord(startLat, startLng), themeId, numStops, maxDistanceKm, tripId)
    {
      var start := Coord(startLat, startLng);
      var theme := GetTheme(themeId);
      if theme.None? {
        return Failure("Theme not found: " + themeId);
      }
      var data := dataLoader.GetData();
      if data.Failure? {
        return Failure(data.error);
      }
      var cands := FilterByDistance(dist, data.value, start, maxDistanceKm);
      if theme.value.keywords != [] {
        cands := Filter(cands, (c: Candidate) => c.place.keyword in theme.value.keywords);
      }
      if cands == [] {
        return Failure("No places found matching criteria");
      }
      var scores := CalculateScores(cands);
      SelectTopDistinct(scores, numStops);
      var selected := Pick(cands, SelectTop(scores, numStops));
      var route := BuildOptimizedRoute(acc, dist, setOrder, start, selected);
      r := BuildTripResponse(key, tripId, start, "theme", route, Some(themeId), None);
    }

    /** `_plan_trip_by_place_name` */
    method PlanTripByPlaceName(acc: Accounting, key: CarbonKey, dist: Haversine, setOrder: SetOrder, re: RegexSearch, startLat: real, startLng: real,
      placeName: string, numStops: nat, maxDistanceKm: real, tripId: string)
      returns (r: Result<TripResponse, string>)
      ensures r == PlaceNamePlan(acc, key, dist, setOrder, re, dataLoader.df, Coord(startLat, startLng), placeName, numStops, maxDistanceKm, tripId)
    {
      var start := Coord(startLat, startLng);
      var search := dataLoader.SearchByName(re, placeName, 1);
      if search.Failure? {
        return Failure(search.error);
      }
      if |search.value| == 0 {
        return Failure("Place not found: " + placeName);
      }
      var target := search.value[0];
      var data := dataLoader.GetData();
      var table := data.value;
      var others := Filter(table, (p: Place) => p.placeId != target.placeId);
      var cands := FilterByDistance(dist, others, start, maxDistanceKm);
      if cands == [] {
        return Failure("No similar places found");
      }
      var scores := SimilarityScores(cands, target);
      SelectTopDistinct(scores, numStops);
      var selected := Pick(cands, SelectTop(scores, numStops));
      var route := BuildOptimizedRoute(acc, dist, setOrder, start, selected);
      r := BuildTripResponse(key, tripId, start, "place_name", route, None, Some(target.name));
    }
  }
}
