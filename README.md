# PaiLOCAL trip planner — a Dafny model

This project models the core of the PaiLOCAL AI backend: the service that plans a day trip
around Chiang Rai from a start point. A trip is planned either by **theme** or by **place name**.

- **By theme.** The planner takes the places of the theme's categories within a radius of the
  start. It ranks them with a weighted score of tourism, rating, transport carbon, popularity and
  distance.
- **By place name.** It takes the places within the radius and ranks them by similarity to the
  first place whose name matches.

The best `num_stops` places are then ordered by the route optimiser. The optimiser builds a greedy
nearest-neighbour tour from the start, then applies a capped 2-opt pass. Each stop gets its leg
distances, its carbon (0.12 kg CO2 per km, plus the place's activity and visitor carbon) and its
photos. The response adds these parts:

- the totals and an eco score on a 0-10 scale;
- the carbon saved against a 15 kg baseline;
- a narrative summary, compass directions and a one-line summary.

The model covers these modules:

| module | models |
|---|---|
| `Config` | the theme table and the weight tables |
| `DataLoading` | the places table: loading, cleaning and queries |
| `GeoUtils` | distances and radius tests |
| `PhotoUtils` | photo URLs |
| `CarbonCalculator` | carbon and eco figures |
| `RouteOptimizer` | stop ordering |
| `TripNarrator` | the texts |
| `TripSelection` | filtering, scoring and `nlargest` |
| `TripPlanning` | the planner service |

`Numeric`, `Seqs` and `Text` hold exact stand-ins for the Python helpers the code relies on:
`round`, `sum`, `np.mean`, boolean-mask filtering, `head`, `strip`, `lower`, `startswith` and
`urllib.parse.quote`.

Some things that are outside the code are parameters of the model:

- the haversine distance (type `GeoUtils.Haversine`: non-negative, zero from a point to itself,
  symmetric);
- whether a photo file exists;
- the random trip id;
- the rows the CSV file holds;
- the order in which Python's `set` iteration visits the unvisited stop positions (type
  `RouteOptimizer.SetOrder`: any listing of `0..n-1` with each position once);
- the regular-expression engine behind pandas' `str.contains` (type `DataLoading.RegexSearch`):
  it either compiles a pattern to a matcher or fails with an error message. It is pinned down
  only for patterns without metacharacters, where it must behave as a literal substring test.

Two places where the code disagrees with its evident intent are parameters as well:

- `RouteOptimizer.Accounting`: the 2-opt acceptance test;
- `TripNarrator.CarbonKey`: the key the narrative reads a leg's carbon from.

`AsWritten` and `FootprintKey` reproduce the code; `Intended` and `CarbonKgKey` are the
corrections (see Findings).

## Model

| member | source | states |
|---|---|---|
| `Config.ScoringWeightsSumToOne` | AI/backend/config.py:87-93 | the five scoring weights are non-negative and sum to 1 |
| `Config.EcoWeightsSumToTen` | AI/backend/config.py:96-101 | the eco-score component weights are non-negative and sum to 10, the top of the eco scale |
| `Config.ThemeIdsDistinct` | AI/backend/config.py:23-84 | there are six themes with non-empty, pairwise distinct ids |
| `Config.KeywordlessThemes` | AI/backend/config.py:23-84 | exactly the "mood" and "weather" themes list no keywords |
| `DataLoading.FillText` | AI/backend/utils/data_loader.py:39-45 | a missing text cell becomes "" and a present one is kept |
| `DataLoading.ToNumber` | AI/backend/utils/data_loader.py:55-57 | a parsed number is kept; a missing or unparsable cell becomes 0 |
| `DataLoading.CleanRow` | AI/backend/utils/data_loader.py:33-63 | `has_phone` / `has_website` hold exactly when the filled phone / website is not blank |
| `DataLoading.CleanData` | AI/backend/utils/data_loader.py:33-63 | cleaning keeps the table's length and order and cleans each row |
| `DataLoading.CleanRowIdempotent` | AI/backend/utils/data_loader.py:33-63 | cleaning a cleaned row again changes nothing |
| `DataLoading.CleanRowKeepsComplete` | AI/backend/utils/data_loader.py:33-63 | a row comes back unchanged iff it has no empty text cell and no non-numeric number |
| `DataLoading.SearchResults` | AI/backend/utils/data_loader.py:71-78 | fails iff the lower-cased, stripped query does not compile as a pattern, with the engine's message; otherwise at most `limit` rows, each with a lower-cased name the pattern is found in |
| `DataLoading.SearchResultsFacts` | AI/backend/utils/data_loader.py:71-78 | a compiled pattern returns the leading matches in table order: all of them when there are no more than `limit`, otherwise exactly `limit` |
| `DataLoading.NameMatches` | AI/backend/utils/data_loader.py:77 | every row kept has a lower-cased name the matcher accepts |
| `DataLoading.LiteralMatches` | AI/backend/utils/data_loader.py:77 | every row kept has the pattern as a substring of its lower-cased name |
| `DataLoading.PlainSearchIsLiteral` | AI/backend/utils/data_loader.py:71-78 | a query with no regex metacharacter never fails and returns the first `limit` rows whose lower-cased name contains it literally; a blank query returns the head of the table |
| `DataLoading.KeywordMatches` | AI/backend/utils/data_loader.py:80-89 | every row kept has a listed keyword |
| `DataLoading.KeywordMatchesMembership` | AI/backend/utils/data_loader.py:80-89 | a row is kept iff it is in the table and its keyword is listed |
| `DataLoading.FirstWithId` | AI/backend/utils/data_loader.py:91-99 | `None` iff no row has the id; otherwise the earliest row with that id |
| `DataLoading.DataLoader.constructor` | AI/backend/utils/data_loader.py:13-15 | a new loader has its path and no table |
| `DataLoading.DataLoader.Load` | AI/backend/utils/data_loader.py:17-31 | the table becomes the cleaned rows and the path is unchanged |
| `DataLoading.DataLoader.GetData` | AI/backend/utils/data_loader.py:65-69 | fails iff nothing is loaded (with the source's message); otherwise returns the table |
| `DataLoading.DataLoader.SearchByName` | AI/backend/utils/data_loader.py:71-78 | fails before loading with the source's message; otherwise returns `SearchResults`, including its pattern-error failure |
| `DataLoading.DataLoader.FilterByKeywords` | AI/backend/utils/data_loader.py:80-89 | fails iff nothing is loaded; an empty list returns the whole table, otherwise the keyword matches |
| `DataLoading.DataLoader.GetPlaceById` | AI/backend/utils/data_loader.py:91-99 | fails iff nothing is loaded; otherwise returns the first row with the id, or `None` |
| `DataLoading.Registry.InitDataLoader` | AI/backend/utils/data_loader.py:106-111 | a fresh loader for the path, loaded with the cleaned rows, becomes the global one |
| `DataLoading.Registry.GetDataLoader` | AI/backend/utils/data_loader.py:114-118 | fails iff no loader was initialised; otherwise returns it |
| `GeoUtils.HaversineProperties` | AI/backend/utils/geo_utils.py:8-41 | distances are non-negative, zero from a point to itself, and symmetric |
| `GeoUtils.DistancesVectorized` | AI/backend/utils/geo_utils.py:44-80 | one non-negative distance per point, each equal to the scalar distance from the start |
| `GeoUtils.PathLengthConcat` | AI/backend/utils/geo_utils.py:83-102 | joining two paths adds the leg between them to their lengths |
| `GeoUtils.PathLengthReversed` | AI/backend/utils/geo_utils.py:83-102 | a path walked backwards has the same length |
| `GeoUtils.PathLength` | AI/backend/utils/geo_utils.py:83-102 | the sum of consecutive legs is never negative |
| `GeoUtils.CalculateTotalRouteDistance` | AI/backend/utils/geo_utils.py:83-102 | the loop returns the rounded sum of consecutive legs; 0 below two waypoints; never negative |
| `GeoUtils.EstimateTravelTime` | AI/backend/utils/geo_utils.py:105-120 | 0 for no positive distance; otherwise distance / speed to within rounding, non-negative at a positive speed |
| `GeoUtils.WithinRadiusFacts` | AI/backend/utils/geo_utils.py:123-144 | a point is within any non-negative radius of itself; the test is symmetric; no point is within a negative radius |
| `PhotoUtils.RenderFacts` | AI/backend/utils/photo_utils.py:53-55 | a served file's URL is `/static/photos/` followed by its quoted name; a placeholder URL is https |
| `PhotoUtils.PhotoUrlFromFilename` | AI/backend/utils/photo_utils.py:31-58 | a URL found is either a given http(s) URL or a served local file |
| `PhotoUtils.PhotoUrlFacts` | AI/backend/utils/photo_utils.py:14-58 | a missing or blank cell gives nothing; an http(s) name comes back stripped; a local name is served iff the stripped name exists |
| `PhotoUtils.Examined` | AI/backend/utils/photo_utils.py:75-77 | at most three columns are examined, and no more than `max_photos` |
| `PhotoUtils.ColumnEntry` | AI/backend/utils/photo_utils.py:79-107 | a column adds at most one entry; without placeholders that entry is the column's URL |
| `PhotoUtils.GetPlacePhotos` | AI/backend/utils/photo_utils.py:61-116 | the loop over the columns returns `PlacePhotos`: each column's entry in order, then the fallback placeholder |
| `PhotoUtils.PlacePhotosFacts` | AI/backend/utils/photo_utils.py:61-116 | at most one photo per examined column; never empty with placeholders; without them every photo is the URL of an examined column |
| `PhotoUtils.PlacePhotos` | AI/backend/utils/photo_utils.py:61-116 | at most three photos; never empty with placeholders |
| `PhotoUtils.EntryIsUrl` | AI/backend/utils/photo_utils.py:79-92 | without placeholders, each collected entry is the URL of one of the columns examined |
| `CarbonCalculator.TransportCarbon` | AI/backend/services/carbon_calculator.py:11-21 | distance × 0.12 to within rounding |
| `CarbonCalculator.TransportCarbonFacts` | AI/backend/services/carbon_calculator.py:11-21 | monotone in the distance, 0 for no distance, non-negative for a non-negative distance |
| `CarbonCalculator.PlaceCarbon` | AI/backend/services/carbon_calculator.py:24-51 | transport carbon + half the activity score + the visitor factor, to within rounding |
| `CarbonCalculator.PlaceCarbonFacts` | AI/backend/services/carbon_calculator.py:24-51 | missing fields count as 0; non-negative inputs give non-negative carbon |
| `CarbonCalculator.PlaceCarbons` | AI/backend/services/carbon_calculator.py:54-75 | one carbon figure per visit, in order |
| `CarbonCalculator.CalculateTripCarbon` | AI/backend/services/carbon_calculator.py:54-75 | the loop returns the rounded sum of the visits' carbon |
| `CarbonCalculator.TripCarbonNonNegative` | AI/backend/services/carbon_calculator.py:54-75 | non-negative visits give a non-negative trip total; an empty trip gives 0 |
| `CarbonCalculator.NormalizedCarbon` | AI/backend/services/carbon_calculator.py:97 | at most 1, and non-negative for non-negative carbon |
| `CarbonCalculator.EcoScore` | AI/backend/services/carbon_calculator.py:78-110 | always in [0, 10]; equal to the raw weighted score, to within rounding, when that score is in range |
| `CarbonCalculator.EcoScoreUsesConfiguredWeights` | AI/backend/services/carbon_calculator.py:96-108 | the raw score weighs its components with `ECO_SCORE_WEIGHTS` |
| `CarbonCalculator.RawEcoScore` | AI/backend/services/carbon_calculator.py:96-108 | with carbon non-negative, tourism and efficiency in [0, 1] and rating in [0, 5], the raw score lies in [0, 10] |
| `CarbonCalculator.EcoScoreInRange` | AI/backend/services/carbon_calculator.py:78-110 | with inputs in their documented ranges, the raw score lies in [0, 10] without clamping |
| `CarbonCalculator.EcoScoreCarbonAntitone` | AI/backend/services/carbon_calculator.py:78-110 | more carbon never raises the eco score |
| `CarbonCalculator.EcoScoreBest` | AI/backend/services/carbon_calculator.py:78-110 | the best inputs score exactly 10 |
| `CarbonCalculator.CarbonReductionPercent` | AI/backend/services/carbon_calculator.py:113-132 | 0 for a non-positive baseline; always in [0, 100]; equal to the raw saving, to within rounding, when that saving is in range |
| `CarbonCalculator.CarbonReductionFacts` | AI/backend/services/carbon_calculator.py:113-132 | the baseline saves 0 %, no carbon saves 100 %, more than the baseline saves 0 %, and the saving is antitone in the carbon |
| `CarbonCalculator.GetCarbonLevel` | AI/backend/services/carbon_calculator.py:135-150 | low iff < 5, medium iff in [5, 12), high iff ≥ 12 |
| `CarbonCalculator.CarbonLevelMonotone` | AI/backend/services/carbon_calculator.py:135-150 | more carbon never gives a lower level |
| `RouteOptimizer.Range` | AI/backend/services/route_optimizer.py:60 | the positions 0..n-1 in increasing order (one admissible set-scan order, the witness of `SetOrder`) |
| `RouteOptimizer.OrderingFacts` | AI/backend/services/route_optimizer.py:60 | any scan order of `set(places_df.index)` has n valid, distinct positions, each once |
| `RouteOptimizer.UniqueNearestPicked` | AI/backend/services/route_optimizer.py:69-78 | a candidate strictly nearer than all others is the one picked, wherever the scan meets it |
| `RouteOptimizer.FirstNearest` | AI/backend/services/route_optimizer.py:69-78 | the position picked is nearest to the current point, and strictly nearer than every earlier position |
| `RouteOptimizer.FirstNearestExtend` | AI/backend/services/route_optimizer.py:69-78 | scanning one more candidate replaces the best only when the new one is strictly nearer |
| `RouteOptimizer.RemoveAtMultiset` | AI/backend/services/route_optimizer.py:85 | removing a visited candidate removes exactly that candidate |
| `RouteOptimizer.ScanNearest` | AI/backend/services/route_optimizer.py:66-78 | the scan loop returns `FirstNearest` |
| `RouteOptimizer.NearestNeighborFromPermutes` | AI/backend/services/route_optimizer.py:65-87 | the greedy tour visits each unvisited candidate exactly once |
| `RouteOptimizer.NearestNeighborIsPermutation` | AI/backend/services/route_optimizer.py:44-87 | the greedy tour from the origin is a permutation of 0..n-1 |
| `RouteOptimizer.NearestNeighborGreedy` | AI/backend/services/route_optimizer.py:65-87 | each stop is no farther from the current point than any later stop, and strictly nearer than every later stop the set scan meets before it |
| `RouteOptimizer.NearestNeighborStep` | AI/backend/services/route_optimizer.py:65-87 | one step takes the first nearest candidate and continues from it over the rest |
| `RouteOptimizer.NearestNeighbor` | AI/backend/services/route_optimizer.py:44-87 | the while loop returns `NearestNeighborOrder` |
| `RouteOptimizer.NearestNeighborOrder` | AI/backend/services/route_optimizer.py:44-87 | the greedy tour has one stop per candidate (its permutation property is `NearestNeighborIsPermutation`) |
| `RouteOptimizer.TwoCandidateTour` | AI/backend/services/route_optimizer.py:65-87 | of two candidates the strictly nearer one is visited first, whichever the set scan meets first |
| `RouteOptimizer.ThreeCandidateTour` | AI/backend/services/route_optimizer.py:65-87 | with a strictly nearest first stop and a strictly nearer second one, the tour of three candidates is fixed for every scan order |
| `RouteOptimizer.ReverseSegment` | AI/backend/services/route_optimizer.py:134 | the reversed route has the same length (positions: `ReverseSegmentIndex`) |
| `RouteOptimizer.SegmentDistance` | AI/backend/services/route_optimizer.py:153-186 | inside the route: the leg into stop i plus the leg into stop j+1; at the tail: the leg into stop i plus a hop from stop i to stop j. Reversing i+1..j replaces the legs into stops i+1 and j+1, so the first term is not an edge the move changes (see Findings) |
| `RouteOptimizer.ReversedSegmentDistance` | AI/backend/services/route_optimizer.py:135-137 | non-negative; inside the route, the leg into stop i plus the hop from stop i+1 to stop j+1 |
| `RouteOptimizer.ReverseSegmentIndex` | AI/backend/services/route_optimizer.py:134 | the reversal mirrors positions i+1..j and keeps every other position |
| `RouteOptimizer.ReverseSegmentSlices` | AI/backend/services/route_optimizer.py:134 | the reversal equals `route[:i+1] + route[i+1:j+1][::-1] + route[j+1:]` |
| `RouteOptimizer.ReverseSegmentPermutes` | AI/backend/services/route_optimizer.py:134 | the reversal only reorders the stops |
| `RouteOptimizer.ReversedSegmentDistanceIsLiteral` | AI/backend/services/route_optimizer.py:135-137 | `new_dist`, measured on the reversed route, equals the closed form read off the current route |
| `RouteOptimizer.AsWrittenAcceptance` | AI/backend/services/route_optimizer.py:153-186 | what the written test compares: route[i+1]→route[j+1] against route[j]→route[j+1] inside the route, and route[i]→route[i+1] against route[i]→route[j] at the tail |
| `RouteOptimizer.FirstImprovingFromImproves` | AI/backend/services/route_optimizer.py:126-143 | the move found is accepted by the test |
| `RouteOptimizer.FirstImprovingFromIsFirst` | AI/backend/services/route_optimizer.py:126-143 | no move scanned before the one found is accepted; if none is found, none from that point on is |
| `RouteOptimizer.FirstImprovingMoveIsFirst` | AI/backend/services/route_optimizer.py:126-146 | a pass applies the first accepted move in scan order; a pass that applies nothing leaves no acceptable move |
| `RouteOptimizer.TwoOptPassesStep` | AI/backend/services/route_optimizer.py:122-146 | the loop stops at a pass that accepts no move; otherwise it applies the move and continues with one pass fewer |
| `RouteOptimizer.TwoOptPassesPermutes` | AI/backend/services/route_optimizer.py:122-146 | the passes only reorder the stops and never move the first stop |
| `RouteOptimizer.TwoOptOrder` | AI/backend/services/route_optimizer.py:113-146 | routes under three stops are unchanged; otherwise the result is a permutation with the same first stop |
| `RouteOptimizer.TwoOptPassesEnd` | AI/backend/services/route_optimizer.py:122-146 | the loop stops only when `max_iterations` moves have been applied or no move is accepted |
| `RouteOptimizer.TwoOptRow` | AI/backend/services/route_optimizer.py:127-143 | the inner `for j` loop applies the first accepted (i, j), or reports that none exists for this i |
| `RouteOptimizer.TwoOptPass` | AI/backend/services/route_optimizer.py:126-146 | one pass reports a move iff one is accepted, and applies exactly the first accepted move |
| `RouteOptimizer.TwoOptReorder` | AI/backend/services/route_optimizer.py:119-146 | the while loop returns `TwoOptOrder` |
| `RouteOptimizer.TwoOptImprovement` | AI/backend/services/route_optimizer.py:90-150 | returns the details of the 2-opt order, skipped below three stops |
| `RouteOptimizer.ReversalLengthChange` | AI/backend/services/route_optimizer.py:134 | a reversal changes the tour length by exactly the added edges minus the removed edges |
| `RouteOptimizer.IntendedPassesShorten` | AI/backend/services/route_optimizer.py:122-146 | with the intended test, a pass that applies a move strictly shortens the tour |
| `RouteOptimizer.IntendedTwoOptNeverLengthens` | AI/backend/services/route_optimizer.py:122-146 | with the intended test, the passes never lengthen the tour |
| `RouteOptimizer.RouteDetailsFacts` | AI/backend/services/route_optimizer.py:189-225 | the details keep the route order; the first leg is measured from the origin; each distance from the start is the running sum of the legs |
| `RouteOptimizer.RouteDetailsMonotone` | AI/backend/services/route_optimizer.py:189-225 | distances from the start never decrease, and the last one is the tour length |
| `RouteOptimizer.CalculateRouteDetails` | AI/backend/services/route_optimizer.py:189-225 | the loop returns `RouteDetails` |
| `RouteOptimizer.RouteDetails` | AI/backend/services/route_optimizer.py:189-225 | one leg per stop, naming that stop, in route order |
| `RouteOptimizer.OptimizedOrder` | AI/backend/services/route_optimizer.py:12-41 | one stop per candidate, starting with the greedy tour's first stop |
| `RouteOptimizer.OptimizedRoute` | AI/backend/services/route_optimizer.py:12-41 | one leg per candidate, each naming a valid position |
| `RouteOptimizer.OptimizedRouteFacts` | AI/backend/services/route_optimizer.py:12-41 | the optimised order visits every candidate once; its first stop is the nearest to the origin (of equally near ones, the first the set scan meets); below three candidates it is the greedy order |
| `RouteOptimizer.OptimizeRoute` | AI/backend/services/route_optimizer.py:12-41 | returns nothing for no candidates, otherwise the details of the optimised order |
| `RouteOptimizer.CalculateRouteEfficiency` | AI/backend/services/route_optimizer.py:228-257 | the efficiency is in [0, 1], and 1 for at most one place |
| `RouteOptimizer.EfficiencyUnrounded` | AI/backend/services/route_optimizer.py:242-257 | the efficiency is `round(min(1, max(0, 1 - d / (15 n))), 2)` |
| `RouteOptimizer.EfficiencyFacts` | AI/backend/services/route_optimizer.py:228-257 | a zero-length tour scores 1; at least 15 km per place scores 0; in between the score is `1 - d / 15n` to within rounding |
| `RouteOptimizer.EfficiencyMonotone` | AI/backend/services/route_optimizer.py:228-257 | a longer tour never scores a higher efficiency |
| `RouteOptimizer.GetRouteSummary` | AI/backend/services/route_optimizer.py:260-285 | all zeros for no stops; otherwise the stop count, the last distance from the start and its average per stop, to within rounding |
| `RouteOptimizer.SummaryOfOptimizedRoute` | AI/backend/services/route_optimizer.py:260-285 | the summary of an optimised route reports the stop count and the rounded tour length |
| `RouteOptimizer.AsWrittenLengthensExample` | AI/backend/services/route_optimizer.py:153-186 | on three collinear stops, for every set-scan order, the written test turns the length-8 greedy tour into a length-11 tour; the intended test keeps it |
| `RouteOptimizer.CollinearNearestNeighbor` | AI/backend/services/route_optimizer.py:44-87 | on the collinear example the greedy tour is A, B, C for every set-scan order |
| `RouteOptimizer.CollinearAsWritten` | AI/backend/services/route_optimizer.py:122-146 | on the collinear example the written passes turn A, B, C into A, C, B |
| `RouteOptimizer.CollinearIntended` | AI/backend/services/route_optimizer.py:122-146 | on the collinear example the intended passes keep A, B, C |
| `RouteOptimizer.IntendedOptimizedNoLonger` | AI/backend/services/route_optimizer.py:12-41 | with the intended test, the optimised tour is never longer than the greedy tour |
| `TripSelection.WithDistances` | AI/backend/services/trip_planner.py:148-162 | each row gets its distance from the centre |
| `TripSelection.FilterByDistance` | AI/backend/services/trip_planner.py:148-162 | no more rows than the table, each with a distance within the radius |
| `TripSelection.FilterByDistanceMembership` | AI/backend/services/trip_planner.py:148-162 | a candidate survives iff it is a row of the table with its own distance, within the radius |
| `TripSelection.KeywordFilter` | AI/backend/services/trip_planner.py:76-78 | no more candidates than given; with keywords, each kept candidate's keyword is listed |
| `TripSelection.KeywordFilterMembership` | AI/backend/services/trip_planner.py:76-78 | keywords keep exactly the candidates of a listed category; no keywords keep them all |
| `TripSelection.SeqMinMaxFacts` | AI/backend/services/trip_planner.py:382-391 | the minimum and maximum are values of the column and bound all the others |
| `TripSelection.NormalizeColumn` | AI/backend/services/trip_planner.py:383-391 | one normalised value per entry (range, order and the constant case: `NormalizeColumnFacts`) |
| `TripSelection.NormalizeColumnFacts` | AI/backend/services/trip_planner.py:382-391 | values in [0, 1] that keep the column's order; 0.5 everywhere for a constant column; otherwise min → 0 and max → 1 |
| `TripSelection.FinalScoreFacts` | AI/backend/services/trip_planner.py:164-197 | features in [0, 1] give a score in [0, 1]; the score is monotone in every feature |
| `TripSelection.CalculateScores` | AI/backend/services/trip_planner.py:164-197 | one final score per candidate, in candidate order (range and dominance: `ScoresInRange`, `ScoreDominance`) |
| `TripSelection.ScoresInRange` | AI/backend/services/trip_planner.py:164-197 | with ratings on 0-5, every candidate scores in [0, 1] |
| `TripSelection.ScoreDominance` | AI/backend/services/trip_planner.py:164-197 | a candidate at least as good on every feature scores at least as high |
| `TripSelection.SimilarityScores` | AI/backend/services/trip_planner.py:199-227 | one similarity score per candidate |
| `TripSelection.Similarity` | AI/backend/services/trip_planner.py:207-225 | at most 1, and at most 0.6 when the keywords differ |
| `TripSelection.SimilarityFacts` | AI/backend/services/trip_planner.py:207-225 | similarity is at most 1, equals 1 iff keyword, tourism score and rating all match, is symmetric, and is non-negative for in-range inputs |
| `TripSelection.BestPosition` | AI/backend/services/trip_planner.py:87 | the first candidate with the largest score |
| `TripSelection.TopNDrawn` | AI/backend/services/trip_planner.py:87 | `nlargest` takes `min(n, len)` candidates, drawn from the candidates |
| `TripSelection.TopNDescending` | AI/backend/services/trip_planner.py:87 | the selection is in non-increasing score order |
| `TripSelection.TopNBeatsRest` | AI/backend/services/trip_planner.py:87 | no candidate left out scores above any candidate taken |
| `TripSelection.TopNTies` | AI/backend/services/trip_planner.py:87 | `keep='first'`: a left-out candidate tying with a taken one comes later in table order |
| `TripSelection.SelectTopFacts` | AI/backend/services/trip_planner.py:87 | `min(n, len)` distinct rows, best first; no row left out scores above a row taken; a tied row left out comes later in the table |
| `TripSelection.Pick` | AI/backend/services/trip_planner.py:87 | the places of the selected rows, in selection order |
| `TripPlanning.ThemeById` | AI/backend/services/trip_planner.py:375-380 | `None` iff no theme has the id; otherwise a theme from the table with that id |
| `TripPlanning.ThemeByIdFirst` | AI/backend/services/trip_planner.py:375-380 | the lookup returns the theme at the first position holding the id |
| `TripPlanning.ConfiguredThemeLookup` | AI/backend/services/trip_planner.py:375-380 | each configured theme is found by its own id |
| `TripPlanning.GetTheme` | AI/backend/services/trip_planner.py:375-380 | the scan returns `ThemeById` over `THEMES` |
| `TripPlanning.PlannerPhotosFacts` | AI/backend/services/trip_planner.py:365-373 | at most three photos, none blank; each photo column appears iff it is not blank |
| `TripPlanning.PlannerPhotos` | AI/backend/services/trip_planner.py:365-373 | at most three photos, none of them blank |
| `TripPlanning.GetPlacePhotos` | AI/backend/services/trip_planner.py:365-373 | the column loop returns `PlannerPhotos` |
| `TripPlanning.BuiltFromFields` | AI/backend/services/trip_planner.py:254-274 | a stop carries its place's fields, the truncated rating count, the carbon of its leg and the non-blank photos; phone, website and review are present exactly when the place has them |
| `TripPlanning.StopOf` | AI/backend/services/trip_planner.py:254-274 | the stop carries its number, the place's id and name, the leg's two distances, at most three photos, and a phone / website exactly when the place has one |
| `TripPlanning.StopsFromLegs` | AI/backend/services/trip_planner.py:241-278 | the loop builds one stop per leg, numbered from 1 |
| `TripPlanning.BuildOptimizedRoute` | AI/backend/services/trip_planner.py:229-278 | returns `OptimizedStops`: the stops of the optimised legs |
| `TripPlanning.StopsFollowOrder` | AI/backend/services/trip_planner.py:229-278 | stop k is numbered k+1 and describes the place that the optimised order visits k-th |
| `TripPlanning.OptimizedStopsFacts` | AI/backend/services/trip_planner.py:229-278 | one stop per selected place, numbered in order; every stop describes a selected place, and every selected place is described |
| `TripPlanning.OptimizedLegDistances` | AI/backend/services/route_optimizer.py:189-225 | the optimised legs start at the origin, accumulate their distances, and never decrease |
| `TripPlanning.LegDistances` | AI/backend/services/route_optimizer.py:189-225 | for any valid order: the legs name valid positions, the first starts at the origin, each distance from the start is the running sum, and those never decrease |
| `TripPlanning.OptimizedStopsDistances` | AI/backend/services/trip_planner.py:229-278 | the first stop's leg is from the start; each stop's distance from the start is the running sum of its legs, non-decreasing |
| `TripPlanning.BuildTripResponse` | AI/backend/services/trip_planner.py:280-363 | the method returns `TripResponseOf` |
| `TripPlanning.TripResponseOf` | AI/backend/services/trip_planner.py:280-363 | fails with "No route generated" iff the route is empty; otherwise the response carries the route, the mode, the trip id and the start |
| `TripPlanning.TripResponseFacts` | AI/backend/services/trip_planner.py:280-363 | fails iff the route is empty; otherwise it reports the stop count, the distance and carbon (to within rounding), an eco score in [0, 10], a reduction in [0, 100], 2 narrative lines per stop plus 11, one direction per stop, and the theme only if given |
| `TripPlanning.ResponseCarriesRoute` | AI/backend/services/trip_planner.py:336-363 | a response carries the route, the mode, and the shown theme and place name |
| `TripPlanning.TopStopsFacts` | AI/backend/services/trip_planner.py:86-92 | the best `min(n, len)` candidates become that many stops, each describing one of the candidates |
| `TripPlanning.ThemePlanOutcome` | AI/backend/services/trip_planner.py:56-99 | fails iff the theme is unknown, nothing is loaded, or no place of the theme is within the radius; otherwise it returns the theme route in mode "theme" |
| `TripPlanning.ThemePlan` | AI/backend/services/trip_planner.py:56-99 | an unknown theme fails with "Theme not found"; a success is in mode "theme" with the given trip id |
| `TripPlanning.KnownThemeIdNonEmpty` | AI/backend/config.py:23-84 | a theme id that is found is not empty, so the response shows it |
| `TripPlanning.ThemeRouteFacts` | AI/backend/services/trip_planner.py:56-99 | 1 to `num_stops` stops, `min(num_stops, candidates)` of them; each describes a table row within the radius and of a listed category |
| `TripPlanning.ThemeRouteNonEmpty` | AI/backend/services/trip_planner.py:56-99 | with at least one stop asked for and one candidate, the theme route is not empty |
| `TripPlanning.ThemeRouteShape` | AI/backend/services/trip_planner.py:56-99 | the theme route has `min(num_stops, candidates)` stops, each describing a candidate |
| `TripPlanning.ThemeStopsFacts` | AI/backend/services/trip_planner.py:56-99 | stops built from theme candidates number 1 to `num_stops`, lie within the radius, describe table rows and have a listed category |
| `TripPlanning.PlaceNamePlanOutcome` | AI/backend/services/trip_planner.py:101-146 | fails, in the source's order and with its messages, iff nothing is loaded, the name is not a valid pattern, no name matches, or no other place is within the radius; otherwise it returns the similar-places route of the first match in mode "place_name", showing its name |
| `TripPlanning.PlaceNamePlan` | AI/backend/services/trip_planner.py:101-146 | fails before loading with the source's message; a success is in mode "place_name" with the given trip id |
| `TripPlanning.SimilarRouteFacts` | AI/backend/services/trip_planner.py:101-146 | 1 to `num_stops` stops; each describes a table row within the radius, other than the target place |
| `TripPlanning.SimilarRouteNonEmpty` | AI/backend/services/trip_planner.py:101-146 | with at least one stop asked for and one candidate, the similar-places route is not empty |
| `TripPlanning.SimilarRouteShape` | AI/backend/services/trip_planner.py:101-146 | the similar-places route has `min(num_stops, candidates)` stops, each describing a candidate |
| `TripPlanning.SimilarStopsFacts` | AI/backend/services/trip_planner.py:101-146 | stops built from the candidates number 1 to `num_stops`, lie within the radius, describe table rows and are not the target place |
| `TripPlanning.PlanModes` | AI/backend/services/trip_planner.py:22-54 | any mode other than "theme" and "place_name" fails; a success carries its mode |
| `TripPlanning.Plan` | AI/backend/services/trip_planner.py:22-54 | an unknown mode fails with "Invalid mode"; a success carries the requested mode and the trip id |
| `TripPlanning.TripPlanner.constructor` | AI/backend/services/trip_planner.py:16-20 | the planner holds the given data loader |
| `TripPlanning.TripPlanner.PlanTrip` | AI/backend/services/trip_planner.py:22-54 | returns `Plan` over the loader's table |
| `TripPlanning.TripPlanner.PlanTripByTheme` | AI/backend/services/trip_planner.py:56-99 | returns `ThemePlan` over the loader's table |
| `TripPlanning.TripPlanner.PlanTripByPlaceName` | AI/backend/services/trip_planner.py:101-146 | returns `PlaceNamePlan` over the loader's table |
| `TripNarrator.CalculateDirection` | AI/backend/services/trip_narrator.py:138-166 | diagonal iff both offsets exceed 0.01; the heading's sense follows the signs; otherwise the axis of the larger offset; a zero move reads west |
| `TripNarrator.ReversedLegIsOpposite` | AI/backend/services/trip_narrator.py:138-166 | a leg travelled backwards gets the opposite heading, unless it does not move |
| `TripNarrator.GetEcoRating` | AI/backend/services/trip_narrator.py:168-177 | three stars iff ≥ 8, two iff in [6, 8), one iff in [4, 6), smoke iff < 4 |
| `TripNarrator.EcoRatingMonotone` | AI/backend/services/trip_narrator.py:168-177 | a higher eco score never earns fewer stars |
| `TripNarrator.Recommendation` | AI/backend/services/trip_narrator.py:97-105 | eco-friendly iff ≥ 7, moderate iff in [5, 7), high carbon iff < 5 |
| `TripNarrator.AdviceAgreesWithRating` | AI/backend/services/trip_narrator.py:94-105 | an eco-friendly trip has at least two stars; a high-carbon trip has at most one |
| `TripNarrator.FirstOccurrences` | AI/backend/services/trip_narrator.py:47-52 | the dict keys are distinct and are exactly the keywords present |
| `TripNarrator.CountingLoop` | AI/backend/services/trip_narrator.py:47-50 | the loop ends with the first-occurrence key order and the count of every keyword |
| `TripNarrator.CountStep` | AI/backend/services/trip_narrator.py:48-50 | counting one more keyword keeps the key order and the counts right |
| `TripNarrator.CountKeywords` | AI/backend/services/trip_narrator.py:47-52 | `keywords.items()` equals `Tally`: each distinct keyword, in first-occurrence order, with its count |
| `TripNarrator.TallyTotal` | AI/backend/services/trip_narrator.py:47-52 | the tally's counts add up to the number of places |
| `TripNarrator.TallyKinds` | AI/backend/services/trip_narrator.py:47-52 | the tally has one entry per distinct keyword |
| `TripNarrator.MarkFor` | AI/backend/services/trip_narrator.py:79 | a bullet iff the rating is 0; otherwise `int(rating)` stars (none for a negative rating) |
| `TripNarrator.RouteLinesAt` | AI/backend/services/trip_narrator.py:70-86 | lines 2i and 2i+1 of the route section are the two lines of stop i |
| `TripNarrator.AsWrittenLegCarbonsAreZero` | AI/backend/services/trip_narrator.py:76 | reading `carbon_footprint_kg`, the leg lines show 0 kg in total |
| `TripNarrator.LegCarbonsAddUp` | AI/backend/services/trip_narrator.py:70-86 | reading `carbon_kg`, the leg lines' carbon adds up to the stops' carbon less the first stop's |
| `TripNarrator.ShownTheme` | AI/backend/services/trip_narrator.py:58-61 | the theme is shown iff it is given and non-empty |
| `TripNarrator.AppendStopLines` | AI/backend/services/trip_narrator.py:70-86 | the stop loop appends the route section, two lines per stop in route order |
| `TripNarrator.GenerateTripSummary` | AI/backend/services/trip_narrator.py:20-107 | the method returns `TripSummaryOf` |
| `TripNarrator.TripSummaryFacts` | AI/backend/services/trip_narrator.py:20-107 | the fixed message iff there are no places; otherwise 11 + 2n lines, opening with the theme and count and the tally, closing with the rating and advice for the score |
| `TripNarrator.TripSummaryOf` | AI/backend/services/trip_narrator.py:20-107 | the fixed message iff there are no stops; otherwise the narrative opens with the four header lines |
| `TripNarrator.TripSummaryStop` | AI/backend/services/trip_narrator.py:70-86 | stop i is on line 4+2i, numbered i+1, with its name, category and rating |
| `TripNarrator.RouteDirections` | AI/backend/services/trip_narrator.py:109-136 | one step per stop: a start step first, then a drive step per leg |
| `TripNarrator.GenerateRouteDirections` | AI/backend/services/trip_narrator.py:109-136 | the loop returns `RouteDirections` |
| `TripNarrator.ReversedRouteDirections` | AI/backend/services/trip_narrator.py:109-166 | the reversed route's leg k heads opposite to leg n-k of the route, when consecutive stops differ |
| `TripNarrator.GenerateCompactSummary` | AI/backend/services/trip_narrator.py:179-205 | nothing iff there are no stops; otherwise the count, and the one category iff all stops share it (else a count of at least 2) |
| `TripNarrator.CompactKindsMatchTally` | AI/backend/services/trip_narrator.py:179-205 | the compact summary's category count is the number of entries in the narrative's tally |
| `Text.Strip` | AI/backend/utils/data_loader.py:60-61 | no longer than its input; empty iff the input is blank; otherwise starts and ends with non-whitespace |
| `Text.StripIsInfix` | AI/backend/utils/data_loader.py:60-61 | the stripped string is a contiguous piece of the input |
| `Text.StripIdempotent` | AI/backend/utils/photo_utils.py:27 | stripping twice is stripping once |
| `Text.Lower` | AI/backend/utils/data_loader.py:76-77 | same length, each ASCII letter lower-cased, everything else unchanged |
| `Text.StartsWithIsPrefix` | AI/backend/utils/photo_utils.py:47 | `startswith` holds iff the prefix is the string's first characters |
| `Text.QuoteIsUrlSafe` | AI/backend/utils/photo_utils.py:53 | every quoted character is URL-safe, a `%` or an upper-case hex digit |
| `Text.QuoteOfSafeIsIdentity` | AI/backend/utils/photo_utils.py:53 | a name of safe characters comes back from quoting unchanged |
| `Text.QuoteLength` | AI/backend/utils/photo_utils.py:53 | quoting never shortens, and lengthens iff some character needs escaping |
| `Numeric.Round2` | AI/backend/utils/geo_utils.py:102 | `round(x, 2)` is within 0.005 of x |
| `Numeric.Round1Monotone` | AI/backend/services/carbon_calculator.py:110 | `round(x, 1)` is monotone |
| `Numeric.MeanBounds` | AI/backend/services/trip_planner.py:301-303 | the mean of values in [lo, hi] is in [lo, hi] |
| `Seqs.FilterCounts` | AI/backend/services/trip_planner.py:160-162 | a boolean mask keeps each accepted element as often as it occurs and drops the rest |
| `Seqs.FilterConcat` | AI/backend/services/trip_planner.py:160-162 | masking distributes over concatenation, so it keeps order |
| `Seqs.Head` | AI/backend/utils/data_loader.py:78 | `head(n)` is the first `min(n, len)` rows (all but the last -n for negative n) |

## Left out

- Reading the CSV file and the photos directory: `Load` receives the parsed rows, and file existence is a predicate parameter.
- `_clean_data` assumes every numeric column is present (the `if col in self.df.columns` test is not modelled).
- The haversine formula is a parameter with the formula's guarantees: non-negative, zero from a point to itself, symmetric. Trigonometry and floating point are not computed.
- `round` is round-half-even on exact reals. Binary float representation error is not modelled.
- The order in which `_nearest_neighbor` iterates `set(places_df.index)` is a parameter (`RouteOptimizer.SetOrder`): any listing of the positions with each once. CPython's hash-table slot order is not computed, and the index labels are taken to be the positions 0..n-1 of the table the planner passes.
- `RouteOptimizer.Range`: only one admissible scan order; the model never assumes the set is scanned in increasing order.
- `RouteOptimizer.NearestNeighborGreedy`: the tie-break is stated relative to the scan-order parameter, not as a concrete order, because CPython's set order is not modelled.
- `RouteOptimizer.OptimizedRouteFacts`: on a tie for the nearest first stop, the stop chosen is the first the scan-order parameter meets, not a concrete table position, for the same reason.
- `DataLoading.RegexSearch`: the semantics of Python's `re` engine are a parameter. It is constrained only for patterns without the metacharacters `.^$*+?{}[]\|()`, where it must compile and act as a substring test. Patterns that use them can match anything or fail; the model does not compute which.
- `DataLoading.SearchResults`: for a query with regex metacharacters, which names match and the text of the `re.error` message both come from the engine parameter.
- `GeoUtils.EstimateTravelTime`: requires a non-zero speed when the distance is positive. The `ZeroDivisionError` path (geo_utils.py:119) is not modelled, because the only caller (trip_planner.py:297) passes the default speed of 40 km/h.
- Narrative and direction texts are values: lines, headings, counts. The Thai wording, emoji, f-string number formatting and `"\n".join` are not modelled.
- The trip id (`trip_` followed by 8 hex digits of `uuid.uuid4()`) is a parameter.
- Logging, the Flask routes, the request schemas (schemas.py) and `image_similarity.py` are not part of this model.
- `get_photos_stats` and `init_photos` are not modelled: they only report on the directory.
- `DataLoading.NameMatches`: `place_id`, `name` and `address` are taken to be present in every row, because `_clean_data` does not fill them (data_loader.py:39-45) and the model types them as plain strings. This leaves three source behaviours for an empty cell unmodelled:
  - the name search skips a row with a NaN name (`na=False`, data_loader.py:77);
  - a stop shows the text "nan" for the missing field (trip_planner.py:257-260);
  - a target with a NaN `place_id` excludes no row from its own candidates (trip_planner.py:122), so it can come back as its own first stop.
- `Text.Lower`: lower-cases ASCII letters only. Full Unicode case mapping is left out; Thai has no case.
- `TripPlanning.TripPlanner.PlanTrip`: requires `numStops >= 1`, the lower bound the request schema (schemas.py:12) enforces before the planner is called. The upper bound of 20 is not needed by any proof.
- `RouteOptimizer.TwoOptPasses`: the passes are bounded by a fuel count, which is exactly `max_iterations`, so nothing is lost.
- `TripSelection.SelectTop`: ties in `nlargest` are broken by table order (`keep='first'`).

## Findings

| source | as written | input that shows it | evidently intended | confidence | as-written member | corrected member |
|---|---|---|---|---|---|---|
| AI/backend/services/route_optimizer.py:153-186 | `_calculate_segment_distance` measures route[i-1]→route[i] plus route[j]→route[j+1] (plus route[i]→route[j] at the tail). So the test compares edges a reversal does not remove, and it can accept a move that lengthens the route | origin O and stops A, B, C on one line at 3, 5 and 8 from O: the greedy tour O-A-B-C (length 8) becomes O-A-C-B (length 11) | compare the removed edges route[i]→route[i+1] and route[j]→route[j+1] with the added ones, so that every accepted move shortens the tour | not executed | `RouteOptimizer.AsWrittenLengthensExample` | `RouteOptimizer.IntendedTwoOptNeverLengthens` |
| AI/backend/services/trip_narrator.py:76 | the narrative reads each leg's carbon from `carbon_footprint_kg`, a key the planner's stops never carry (they use `carbon_kg`, trip_planner.py:267) | any planned trip of two or more stops with non-zero carbon: every leg line shows 0.00 kg | read `carbon_kg`, so the leg lines show each stop's carbon | not executed | `TripNarrator.AsWrittenLegCarbonsAreZero` | `TripNarrator.LegCarbonsAddUp` |
