# Distance resolution of the SPM search service, in Dafny

This project models `DistanceService`, the class that resolves distances for a
point-of-interest search. Given a query origin and a list of R-tree entries
(inner nodes with a bounding rectangle, or leaves with a point), it:

1. projects the origin onto each entry. A leaf gives its own point. A node
   gives the point of its rectangle nearest the origin, clamped one axis at a
   time. Any other entry type is refused.
2. sends the projected points to a distance-matrix service in windows of at
   most 25. A window whose overall status is not `"OK"` fails the whole call.
3. classifies each element of a response:
   - an `"OK"` element puts an EXACT distance under the entry's id;
   - any other element puts the entry on a fallback list.
4. computes a haversine ESTIMATE for every fallback entry, and merges the
   estimates so that an id already present keeps its EXACT value.

The model has six modules:

- `DistanceTypes` (Types.dfy): the entities.
- `Projection`: `getClosestDimension` and `getClosestMBRPoint`.
- `Batching`: the windows of the batch loop.
- `DistanceService`: specification functions, plus methods that mirror the
  Java loops, each proved equal to its function.
- `DistanceProperties`: what the service promises, proved about those
  functions.
- `Scenarios`: worked concrete cases.

The distance-matrix service is a function of its request, a parameter of type `Oracle`. The
great-circle formula is a parameter of type `Haversine`, which returns whole
metres. `RunBatches` and `CalculateGoogleDistance` also return a ghost log
`sent` of the destination lists passed to the service, including those sent
by `ProcessWindow` on their behalf.

Exceptions become values of `Result`:

- `UnsupportedOperation`: the entry is neither node nor leaf.
- `ExternalServiceUnavailable(message)`: the batch status is not `"OK"`.
- `IndexOutOfBounds`: the response has no row, or too few elements for the
  window.

The code does not check the shape of a response whose status is `"OK"`:
`rows.get(0)` or `getElements().get(j % 25)` throws
`IndexOutOfBoundsException` when the row or the element is missing. The
model yields `IndexOutOfBounds` there. Any partial map is discarded, exactly
as in the code.

## Model

| member | source | states |
|---|---|---|
| Projection.ClosestDimension | src/main/java/com/uoi/spmsearch/service/DistanceService.java:25-29 | below the interval gives the lower bound, inside gives the coordinate itself, above gives the upper bound; for a non-inverted interval the result lies in it |
| Projection.ClosestDimensionIsNearest | src/main/java/com/uoi/spmsearch/service/DistanceService.java:25-29 | no point of [lower, upper] is nearer to the coordinate than the clamped one |
| Projection.ClosestMBRPoint | src/main/java/com/uoi/spmsearch/service/DistanceService.java:31-48 | fails with UnsupportedOperation exactly when the entry is neither node nor leaf; a leaf gives its own point; a node with a well-formed rectangle gives a point inside it, and the origin itself when the origin is inside |
| Projection.ClosestMBRPointIsNearest | src/main/java/com/uoi/spmsearch/service/DistanceService.java:34-40 | no point of a node's rectangle is closer to the origin (squared planar distance) than the projected point |
| Batching.WindowsFrom | src/main/java/com/uoi/spmsearch/service/DistanceService.java:59-61 | the windows left once the counter is at i are none exactly when i >= n; each lies in [i, n) and holds 1 to 25 entries; the first starts at i and the last ends at n |
| Batching.WindowsShape | src/main/java/com/uoi/spmsearch/service/DistanceService.java:59-61 | the loop visits ceil(n / 25) windows, window k being [25k, min(n, 25k + 25)) |
| Batching.WindowsPartition | src/main/java/com/uoi/spmsearch/service/DistanceService.java:59-61 | the windows cover [0, n) in order without gap or overlap; each holds 1 to 25 entries; no entries means no window |
| Batching.WindowOf | src/main/java/com/uoi/spmsearch/service/DistanceService.java:59-66 | entry j lies in window j / 25 and in no other, and j % 25 is its offset inside that window |
| Batching.PositionInWindow | src/main/java/com/uoi/spmsearch/service/DistanceService.java:65-66 | inside the window that starts at 25k, j / 25 is k and j % 25 is j - 25k |
| Batching.OffsetInWindow | src/main/java/com/uoi/spmsearch/service/DistanceService.java:65-66 | inside a window starting at a multiple of 25, j % 25 is the offset of j from the window's start, the index the loop reads |
| DistanceService.Project | src/main/java/com/uoi/spmsearch/service/DistanceService.java:52-55 | fails with UnsupportedOperation exactly when some entry is unsupported; otherwise holds one point per entry, in order, each the entry's projection |
| DistanceService.ProjectDestinations | src/main/java/com/uoi/spmsearch/service/DistanceService.java:52-55 | the projection loop returns Project of the entries |
| DistanceService.ResponseElements | src/main/java/com/uoi/spmsearch/service/DistanceService.java:62-66 | a status other than OK fails with ExternalServiceUnavailable carrying the service's message; an OK response with no row or too few elements fails with IndexOutOfBounds; otherwise the elements read are the first `count` elements of the first row |
| DistanceService.ResponseElementsNext | src/main/java/com/uoi/spmsearch/service/DistanceService.java:65-66 | each successful read extends the elements read by one; a failed read fails the whole window |
| DistanceService.WindowElements | src/main/java/com/uoi/spmsearch/service/DistanceService.java:60-66 | a window answered with a status other than OK fails with the service's message; otherwise the response has a first row at least as long as the window, and the elements read are its first ones, one per entry |
| DistanceService.GatherUpTo | src/main/java/com/uoi/spmsearch/service/DistanceService.java:59-66 | after m usable windows, min(n, 25m) elements have been read |
| DistanceService.Outcomes | src/main/java/com/uoi/spmsearch/service/DistanceService.java:59-66 | when every window is usable, there is exactly one element per entry |
| DistanceService.GatherNext | src/main/java/com/uoi/spmsearch/service/DistanceService.java:59-66 | one more window appends its elements, or fails with that window's error |
| DistanceService.GatherErrPersists | src/main/java/com/uoi/spmsearch/service/DistanceService.java:62-63 | once a window has failed, no later window changes the outcome |
| DistanceService.GatherAt | src/main/java/com/uoi/spmsearch/service/DistanceService.java:65-66 | element j comes from the response to window j / 25: that response has status OK, and the element is at offset j % 25 of its first row |
| DistanceService.ClassifyIntoExtend | src/main/java/com/uoi/spmsearch/service/DistanceService.java:65-75 | classifying one more entry is one more step after the others |
| DistanceService.ClassifySliceExtend | src/main/java/com/uoi/spmsearch/service/DistanceService.java:65-75 | the inner loop over [i, j + 1) is one step after the loop over [i, j) |
| DistanceService.ClassifyAppend | src/main/java/com/uoi/spmsearch/service/DistanceService.java:59-76 | classifying two lists one after the other is classifying their concatenation, so the windows compose into one pass |
| DistanceService.ClassifyWindowAfter | src/main/java/com/uoi/spmsearch/service/DistanceService.java:59-76 | the state after a window is the window's classification applied to the state before it |
| DistanceService.Classify | src/main/java/com/uoi/spmsearch/service/DistanceService.java:65-75 | the EXACT keys are exactly the ids with an OK element, and the fallback list is exactly NotOk: the entries whose element is not OK, in candidate order, repeats kept |
| DistanceService.NotOkSnoc | src/main/java/com/uoi/spmsearch/service/DistanceService.java:71-74 | the entries not answered OK, read from the end: one more entry adds itself at the end when its element is not OK, and nothing otherwise |
| DistanceService.ResolvedIdsSnoc | src/main/java/com/uoi/spmsearch/service/DistanceService.java:67-70 | one more entry adds its id to the ids answered OK exactly when its element is OK |
| DistanceService.ClassifyIntoKeys | src/main/java/com/uoi/spmsearch/service/DistanceService.java:67-70 | the inner loop adds exactly the ids with an OK element to the keys of the map it starts from |
| DistanceService.ClassifyIntoFallback | src/main/java/com/uoi/spmsearch/service/DistanceService.java:71-74 | the inner loop appends exactly the entries whose element is not OK, in order and with repeats, to the list it starts from |
| DistanceService.ClassifyFallback | src/main/java/com/uoi/spmsearch/service/DistanceService.java:71-74 | the fallback list holds exactly the entries whose element is not OK |
| DistanceService.ClassifyKeys | src/main/java/com/uoi/spmsearch/service/DistanceService.java:67-70 | the keys of the EXACT map are exactly the ids with some OK element, and every value there is EXACT |
| DistanceService.ClassifyExactAt | src/main/java/com/uoi/spmsearch/service/DistanceService.java:67-70 | under an id, the EXACT value is the one from the last OK element with that id, because HashMap.put replaces |
| DistanceService.HaversineDistances | src/main/java/com/uoi/spmsearch/service/DistanceService.java:87-113 | fails with UnsupportedOperation exactly when some entry is unsupported; otherwise its keys are exactly the entries' ids |
| DistanceService.HaversineAt | src/main/java/com/uoi/spmsearch/service/DistanceService.java:94-109 | the ESTIMATE under an id is computed from the projected point of the last entry with that id |
| DistanceService.MergeKeepExisting | src/main/java/com/uoi/spmsearch/service/DistanceService.java:79-81 | the keys are the union; an id already present keeps its value; a new id gets the fallback value |
| DistanceService.MergeFallback | src/main/java/com/uoi/spmsearch/service/DistanceService.java:77-81 | the merge loop, in any key order, produces MergeKeepExisting |
| DistanceService.CalculateHaversineDistance | src/main/java/com/uoi/spmsearch/service/DistanceService.java:87-113 | the estimation loop returns HaversineDistances |
| DistanceService.ClassifyWindow | src/main/java/com/uoi/spmsearch/service/DistanceService.java:65-75 | the inner loop over [i, upper) fails exactly as reading the window's elements fails; otherwise it gives the classification of those elements from the incoming state |
| DistanceService.Batches | src/main/java/com/uoi/spmsearch/service/DistanceService.java:56-76 | the batch loop succeeds exactly when every window is usable and otherwise fails with the first failure; on success its EXACT keys are the ids answered OK and its fallback list is NotOk of the entries |
| DistanceService.Complete | src/main/java/com/uoi/spmsearch/service/DistanceService.java:77-84 | the end step fails exactly when a fallback entry cannot be projected; on success its keys are the EXACT keys plus the fallback ids, and every EXACT value is kept |
| DistanceService.GoogleDistance | src/main/java/com/uoi/spmsearch/service/DistanceService.java:50-85 | an unsupported entry fails the call with UnsupportedOperation; a map comes back only when every entry projects and every window is usable |
| DistanceService.ProcessWindow | src/main/java/com/uoi/spmsearch/service/DistanceService.java:60-75 | one pass of the batch loop: a status other than OK fails with the service's message; otherwise the window is classified |
| DistanceService.GatheredNext | src/main/java/com/uoi/spmsearch/service/DistanceService.java:59-76 | a usable window moves the loop state from k windows to k + 1 |
| DistanceService.GatheredFails | src/main/java/com/uoi/spmsearch/service/DistanceService.java:59-76 | a failing window fails the whole batch loop with that window's error |
| DistanceService.GatheredAll | src/main/java/com/uoi/spmsearch/service/DistanceService.java:59-76 | after the last window, the loop state is the batch loop's result |
| DistanceService.RequestsNext | src/main/java/com/uoi/spmsearch/service/DistanceService.java:59-61 | the request log after k + 1 windows is the log after k windows plus window k |
| DistanceService.RequestsPrefix | src/main/java/com/uoi/spmsearch/service/DistanceService.java:59-61 | the first m requests, concatenated, are the first min(n, 25m) projected points |
| DistanceService.RunBatches | src/main/java/com/uoi/spmsearch/service/DistanceService.java:56-76 | the batch loop returns Batches; what it sent is a prefix of Requests, all of it on success; on failure it stopped at the first window whose read failed, after every earlier window was usable |
| DistanceService.CalculateGoogleDistance | src/main/java/com/uoi/spmsearch/service/DistanceService.java:50-85 | returns GoogleDistance; sends nothing when projection fails; otherwise sends a prefix of the windows of the projected points, all of them on success, and stops at the first window whose read fails |
| DistanceProperties.FallbackEstimable | src/main/java/com/uoi/spmsearch/service/DistanceService.java:77-78 | every fallback entry was projected before, so estimating the fallback list cannot fail |
| DistanceProperties.ResolutionShape | src/main/java/com/uoi/spmsearch/service/DistanceService.java:50-85 | once projection and every window succeed, the result is the end step on the classified state, and that step succeeds |
| DistanceProperties.SucceedsIff | src/main/java/com/uoi/spmsearch/service/DistanceService.java:50-85 | a map is returned exactly when every entry projects and every window is usable |
| DistanceProperties.UnsupportedFails | src/main/java/com/uoi/spmsearch/service/DistanceService.java:44-45 | a single unsupported entry makes the call fail with UnsupportedOperation |
| DistanceProperties.UnavailableBatchFails | src/main/java/com/uoi/spmsearch/service/DistanceService.java:62-63 | any window answered with a status other than OK makes the call fail: there is no partial result |
| DistanceProperties.FirstUnavailableBatch | src/main/java/com/uoi/spmsearch/service/DistanceService.java:62-63 | when the earlier windows were usable, a window answered with another status fails the call with ExternalServiceUnavailable carrying the service's error message |
| DistanceProperties.OutcomeAlignment | src/main/java/com/uoi/spmsearch/service/DistanceService.java:65-66 | entry j is classified by element j % 25 of the first row of the response to window j / 25 |
| DistanceProperties.CompleteKeys | src/main/java/com/uoi/spmsearch/service/DistanceService.java:67-84 | after the merge, the keys are exactly the entries' ids |
| DistanceProperties.ResolvedKeys | src/main/java/com/uoi/spmsearch/service/DistanceService.java:50-85 | a successful call has exactly one key per distinct entry id, duplicates or not |
| DistanceProperties.CompleteExact | src/main/java/com/uoi/spmsearch/service/DistanceService.java:67-81 | an id with an OK element carries an EXACT distance after the merge |
| DistanceProperties.ExactWins | src/main/java/com/uoi/spmsearch/service/DistanceService.java:67-81 | an id whose entry got an OK element ends EXACT, never ESTIMATE |
| DistanceProperties.CompleteValue | src/main/java/com/uoi/spmsearch/service/DistanceService.java:67-81 | with unique ids, after the merge each entry has the service's value as EXACT when its element is OK, and otherwise the estimate from its projection as ESTIMATE |
| DistanceProperties.ResolvedValue | src/main/java/com/uoi/spmsearch/service/DistanceService.java:50-85 | with unique ids, each entry ends with the service's value as EXACT when its element is OK, and otherwise the estimate from its projected point as ESTIMATE |
| DistanceProperties.EstimateFromFallback | src/main/java/com/uoi/spmsearch/service/DistanceService.java:71-78 | with unique ids, an entry whose element is not OK is estimated from its own projected point |
| DistanceProperties.FallbackDistinct | src/main/java/com/uoi/spmsearch/service/DistanceService.java:73 | with unique ids, no id appears twice in the fallback list |
| DistanceProperties.HaversineAllEstimates | src/main/java/com/uoi/spmsearch/service/DistanceService.java:108-109 | every value calculateHaversineDistance produces is an ESTIMATE |
| DistanceProperties.NoFallbackIff | src/main/java/com/uoi/spmsearch/service/DistanceService.java:67-77 | the fallback list is empty exactly when every element is OK |
| DistanceProperties.AllAnsweredIsExact | src/main/java/com/uoi/spmsearch/service/DistanceService.java:77-84 | when every element is OK, the map is returned as the batch loop left it, with every value EXACT |
| DistanceProperties.RequestsPartition | src/main/java/com/uoi/spmsearch/service/DistanceService.java:59-61 | the requests, concatenated, are exactly the projected points in order; each holds 1 to 25 points; there are ceil(n / 25) of them, and none for an empty list |
| DistanceProperties.RequestsFollowWindows | src/main/java/com/uoi/spmsearch/service/DistanceService.java:59-61 | request k carries exactly the points of window k of the loop |
| Scenarios.ProjectLeaf | src/main/java/com/uoi/spmsearch/service/DistanceService.java:41-43 | a single leaf projects onto its own point |
| Scenarios.ProjectLeaves | src/main/java/com/uoi/spmsearch/service/DistanceService.java:52-55 | two leaves project onto their own points |
| Scenarios.SingleWindow | src/main/java/com/uoi/spmsearch/service/DistanceService.java:59-66 | up to 25 entries make a single request |
| Scenarios.ClassifyOne | src/main/java/com/uoi/spmsearch/service/DistanceService.java:65-75 | the inner loop over one entry is a single step |
| Scenarios.ClassifyTwo | src/main/java/com/uoi/spmsearch/service/DistanceService.java:65-75 | the inner loop over two entries is two steps, in order |
| Scenarios.EstimateOne | src/main/java/com/uoi/spmsearch/service/DistanceService.java:94-109 | a single leaf gets its haversine value as ESTIMATE |
| Scenarios.OneLeafBatch | src/main/java/com/uoi/spmsearch/service/DistanceService.java:59-75 | one leaf with a single-element response is classified by that element alone |
| Scenarios.OneFallbackComplete | src/main/java/com/uoi/spmsearch/service/DistanceService.java:77-82 | an empty EXACT map and one fallback leaf end with that leaf's estimate |
| Scenarios.AnsweredLeafIsExact | src/main/java/com/uoi/spmsearch/service/DistanceService.java:67-70 | one leaf answered OK with 111000 gives {p1: 111000 EXACT} |
| Scenarios.UnansweredLeafIsEstimated | src/main/java/com/uoi/spmsearch/service/DistanceService.java:71-82 | one leaf answered ZERO_RESULTS gives {p1: haversine value, ESTIMATE} |
| Scenarios.OverQueryLimitFails | src/main/java/com/uoi/spmsearch/service/DistanceService.java:62-63 | status OVER_QUERY_LIMIT fails the call with the service's message |
| Scenarios.MissingRowFails | src/main/java/com/uoi/spmsearch/service/DistanceService.java:66 | an OK response without rows fails with IndexOutOfBounds |
| Scenarios.NoCandidates | src/main/java/com/uoi/spmsearch/service/DistanceService.java:56-84 | no entries means no request and an empty map |
| Scenarios.OtherEntryUnsupported | src/main/java/com/uoi/spmsearch/service/DistanceService.java:44-45 | an unknown entry type fails the call with UnsupportedOperation |
| Scenarios.DuplicateIdKeepsExact | src/main/java/com/uoi/spmsearch/service/DistanceService.java:67-81 | an id answered OK once and unanswered once keeps its EXACT value |
| Scenarios.ClampOntoEdge | src/main/java/com/uoi/spmsearch/service/DistanceService.java:25-40 | an origin outside the rectangle is clamped onto the nearest edge on each axis |
| Scenarios.ThirtyCandidates | src/main/java/com/uoi/spmsearch/service/DistanceService.java:59-61 | 30 entries give windows [0, 25) and [25, 30); 25 entries give one window |
| Scenarios.ThirtyRequests | src/main/java/com/uoi/spmsearch/service/DistanceService.java:59-61 | 30 projected points go out as a request of 25 and a request of 5 |

## Left out

- The HTTP call to the distance-matrix service (`GoogleMapsService.calculateDistance`) is the `Oracle` parameter. Its checked exceptions (`InterruptedException`, `ExecutionException`, `IOException`) are not modelled.
- The haversine formula of lines 88-108 (radians, sine, cosine, atan2, the earth radius 6371 km, squaring then square root, truncation to `int`) is the `Haversine` parameter, which returns whole metres. Properties of the formula itself, such as symmetry or zero distance for equal points, are not modelled.
- Coordinates are `real`, not IEEE doubles. NaN, infinities and rounding are not modelled; the clamp only compares values, so it is exact on reals.
- An element's distance value is an unbounded `int`. The width of the Java field is not modelled.
- Null arguments and null fields (a null list or status, or an OK element with no distance) would throw `NullPointerException`; they are not modelled. A null id would simply be a null `HashMap` key; ids here are non-null strings.
- The service is modelled as a function of its request: two identical windows in one call get the same answer, and an answer that depends on earlier calls (a rate limit reached mid-call) cannot be expressed.
- The model works on values: the `distances` map and the fallback list are local variables of the methods. The aliasing of the returned `HashMap` and its iteration order are not modelled; the merge result is proved independent of key order.
- Spring and Lombok wiring (`@Service`, the injected constructor) and the rest of the repository (controllers, repositories, the R-tree itself) are not part of this model.
- The request log `sent` records only which point lists are passed to the service. The origin passed with each call is the unchanged query origin.
