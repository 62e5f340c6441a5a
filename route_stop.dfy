/**
 * One stop of a planned trip, as `_build_optimized_route` builds it and as the narrator and
 * the response read it back.
 */
module RouteStops {
  import opened Results

  /**
   * The stop's dictionary: its place, its position in the route (numbered from 1), the leg
   * that reaches it and the carbon of that leg, its photos, and the optional contact fields
   * (`None` where the place has no phone, website or review summary).
   */
  datatype Stop = Stop(
    stopNumber: nat, placeId: string, name: string, keyword: string, address: string,
    lat: real, lng: real, distanceFromPrevKm: real, distanceFromStartKm: real,
    rating: real, userRatingsTotal: int, tourismScore: real, carbonKg: real,
    photos: seq<string>,
    hasPhone: bool, phone: Option<string>, hasWebsite: bool, website: Option<string>,
    reviewSummary: Option<string>)

  /** The `keyword` of every stop, in route order. */
  function Keywords(stops: seq<Stop>): (ks: seq<string>)
    ensures |ks| == |stops| && forall k :: 0 <= k < |stops| ==> ks[k] == stops[k].keyword
  {
    seq(|stops|, k requires 0 <= k < |stops| => stops[k].keyword)
  }

  /** The `carbon_kg` of every stop, in route order. */
  function Carbons(stops: seq<Stop>): (cs: seq<real>)
    ensures |cs| == |stops| && forall k :: 0 <= k < |stops| ==> cs[k] == stops[k].carbonKg
  {
    seq(|stops|, k requires 0 <= k < |stops| => stops[k].carbonKg)
  }
}
