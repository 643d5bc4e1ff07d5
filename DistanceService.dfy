/** DistanceService: resolves, for one origin, a Distance for each R-tree
    entry, asking the distance-matrix service in batches of at most 25 and
    falling back to a haversine estimate for the elements it cannot answer.

    The specification functions below (Project, GatherUpTo, Classify,
    HaversineDistances, MergeKeepExisting, GoogleDistance) state what the
    service computes; the methods CalculateGoogleDistance,
    CalculateHaversineDistance and MergeFallback are the loops of the service,
    proved against them. */
module DistanceService {
  import opened DistanceTypes
  import opened Projection
  import opened Batching

  // ---------------------------------------------------------------------------
  // Projection of every destination (the first loop of calculateGoogleDistance)
  // ---------------------------------------------------------------------------

  /** The projected coordinate of every destination, in order; the first
      unsupported entry makes the whole projection fail. */
  function Project(origin: PointOfInterest, ds: seq<RTreeBase>): (r: Result<seq<GeoPoint>>)
    ensures r.Err? <==> exists k :: 0 <= k < |ds| && !Supported(ds[k])
    ensures r.Err? ==> r.error == UnsupportedOperation
    ensures r.Ok? ==> |r.value| == |ds|
    ensures r.Ok? ==> forall k :: 0 <= k < |ds| ==> ClosestMBRPoint(origin, ds[k]) == Ok(r.value[k])
    decreases |ds|
  {
    if ds == [] then Ok([])
    else
      var last := ds[|ds| - 1];
      match Project(origin, ds[..|ds| - 1])
      case Err(e) => Err(e)
      case Ok(coords) =>
        match ClosestMBRPoint(origin, last)
        case Err(e) => Err(e)
        case Ok(p) => Ok(coords + [p])
  }

  // ---------------------------------------------------------------------------
  // Batched calls to the distance-matrix service
  // ---------------------------------------------------------------------------

  /** The destinations sent for window k. */
  function Requests(coords: seq<GeoPoint>): (r: seq<seq<GeoPoint>>)
    ensures |r| == WindowCount(|coords|)
    ensures forall k :: 0 <= k < |r| ==> BatchLimit * k < |coords|
    ensures forall k :: 0 <= k < |r| ==> r[k] == coords[BatchLimit * k .. Min(|coords|, BatchLimit * k + BatchLimit)]
  {
    var n := |coords|;
    seq(WindowCount(n), k requires 0 <= k < WindowCount(n) =>
      WindowStart(n, k); coords[BatchLimit * k .. Min(n, BatchLimit * k + BatchLimit)])
  }

  function Flatten(ss: seq<seq<GeoPoint>>): seq<GeoPoint>
  {
    if ss == [] then [] else Flatten(ss[..|ss| - 1]) + ss[|ss| - 1]
  }

  /** The first count elements of a response, or the exception the loop
      body throws on it: a non-"OK" overall status first, then a missing row
      or a missing element. */
  function ResponseElements(response: DistanceMatrixResult, count: nat): (r: Result<seq<Element>>)
    requires count > 0
    ensures r.Err? <==> response.status != StatusOk || |response.rows| == 0 || |response.rows[0].elements| < count
    ensures response.status != StatusOk ==> r == Err(ExternalServiceUnavailable(response.errorMessage))
    ensures response.status == StatusOk && r.Err? ==> r.error == IndexOutOfBounds
    ensures r.Ok? ==> |r.value| == count
    ensures r.Ok? ==> r.value == response.rows[0].elements[..count]
  {
    if response.status != StatusOk then Err(ExternalServiceUnavailable(response.errorMessage))
    else if |response.rows| == 0 then Err(IndexOutOfBounds)
    else if |response.rows[0].elements| < count then Err(IndexOutOfBounds)
    else Ok(response.rows[0].elements[..count])
  }

  /** rows.get(0).getElements().get(index) on a response, or the exception it throws. */
  function ElementAt(response: DistanceMatrixResult, index: nat): (r: Result<Element>)
    ensures r.Err? <==> |response.rows| == 0 || |response.rows[0].elements| <= index
    ensures r.Err? ==> r.error == IndexOutOfBounds
    ensures r.Ok? ==> r.value == response.rows[0].elements[index]
  {
    if |response.rows| == 0 || |response.rows[0].elements| <= index then Err(IndexOutOfBounds)
    else Ok(response.rows[0].elements[index])
  }

  /** Reading element c after the first c extends the prefix by one, and a
      failed read of element c fails every longer prefix. */
  lemma ResponseElementsNext(response: DistanceMatrixResult, got: seq<Element>, c: nat, count: nat)
    requires response.status == StatusOk && |got| == c && c < count
    requires c > 0 ==> ResponseElements(response, c) == Ok(got)
    ensures ElementAt(response, c).Ok? ==> ResponseElements(response, c + 1) == Ok(got + [ElementAt(response, c).value])
    ensures ElementAt(response, c).Err? ==> ResponseElements(response, count) == Err(IndexOutOfBounds)
  {
    if ElementAt(response, c).Ok? {
      var elements := response.rows[0].elements;
      assert elements[..c + 1] == elements[..c] + [elements[c]];
    }
  }

  /** The elements the loop reads for the window [s, e), or the exception it throws. */
  function WindowElements(origin: PointOfInterest, coords: seq<GeoPoint>, s: nat, e: nat, oracle: Oracle): (r: Result<seq<Element>>)
    requires s < e <= |coords|
    ensures oracle(origin, coords[s..e]).status != StatusOk
            ==> r == Err(ExternalServiceUnavailable(oracle(origin, coords[s..e]).errorMessage))
    ensures r.Ok? ==> |r.value| == e - s
    ensures r.Ok? ==> var response := oracle(origin, coords[s..e]);
              && |response.rows| > 0 && e - s <= |response.rows[0].elements|
              && r.value == response.rows[0].elements[..e - s]
  {
    ResponseElements(oracle(origin, coords[s..e]), e - s)
  }

  /** The elements of the first m windows, concatenated; the first window
      that fails fails the whole. */
  function GatherUpTo(origin: PointOfInterest, coords: seq<GeoPoint>, m: nat, oracle: Oracle): (r: Result<seq<Element>>)
    requires m <= WindowCount(|coords|)
    ensures r.Ok? ==> |r.value| == Min(|coords|, BatchLimit * m)
  {
    if m == 0 then Ok([])
    else
      WindowStart(|coords|, m - 1);
      var start := BatchLimit * (m - 1);
      match GatherUpTo(origin, coords, m - 1, oracle)
      case Err(e) => Err(e)
      case Ok(elems) =>
        match WindowElements(origin, coords, start, Min(|coords|, start + BatchLimit), oracle)
        case Err(e) => Err(e)
        case Ok(got) => Ok(elems + got)
  }

  /** The element of every destination, over all windows. */
  function Outcomes(origin: PointOfInterest, coords: seq<GeoPoint>, oracle: Oracle): (r: Result<seq<Element>>)
    ensures r.Ok? ==> |r.value| == |coords|
  {
    GatherUpTo(origin, coords, WindowCount(|coords|), oracle)
  }

  // ---------------------------------------------------------------------------
  // Classification, fallback estimates and merge
  // ---------------------------------------------------------------------------

  /** The state the batch loop accumulates. */
  datatype Batch = Batch(distances: map<string, Distance>, fallback: seq<RTreeBase>)

  /** k is the last position whose element is "OK" among the destinations with this id. */
  predicate LastOk(ds: seq<RTreeBase>, elems: seq<Element>, id: string, k: int)
    requires |ds| == |elems|
  {
    && 0 <= k < |ds| && ds[k].id == id && elems[k].status == StatusOk
    && forall k' :: k < k' < |ds| && elems[k'].status == StatusOk ==> ds[k'].id != id
  }

  /** The ids whose destination got an "OK" element. */
  function ResolvedIds(ds: seq<RTreeBase>, elems: seq<Element>): set<string>
    requires |ds| == |elems|
  {
    set k | 0 <= k < |ds| && elems[k].status == StatusOk :: ds[k].id
  }

  /** The destinations whose element is not "OK", in candidate order, repeats kept. */
  function NotOk(ds: seq<RTreeBase>, elems: seq<Element>): (r: seq<RTreeBase>)
    requires |ds| == |elems|
    ensures |r| <= |ds|
  {
    if ds == [] then []
    else (if elems[0].status == StatusOk then [] else [ds[0]]) + NotOk(ds[1..], elems[1..])
  }

  /** NotOk read from the other end: one more destination adds itself at the end, or nothing. */
  lemma {:induction false} NotOkSnoc(ds: seq<RTreeBase>, elems: seq<Element>, d: RTreeBase, e: Element)
    requires |ds| == |elems|
    ensures NotOk(ds + [d], elems + [e]) == NotOk(ds, elems) + (if e.status == StatusOk then [] else [d])
    decreases |ds|
  {
    if ds != [] {
      assert (ds + [d])[1..] == ds[1..] + [d];
      assert (elems + [e])[1..] == elems[1..] + [e];
      NotOkSnoc(ds[1..], elems[1..], d, e);
    }
  }

  /** ResolvedIds of one more destination. */
  lemma ResolvedIdsSnoc(ds: seq<RTreeBase>, elems: seq<Element>, d: RTreeBase, e: Element)
    requires |ds| == |elems|
    ensures ResolvedIds(ds + [d], elems + [e])
            == ResolvedIds(ds, elems) + (if e.status == StatusOk then {d.id} else {})
  {
    var ds', elems' := ds + [d], elems + [e];
    forall id | id in ResolvedIds(ds', elems')
      ensures id in ResolvedIds(ds, elems) + (if e.status == StatusOk then {d.id} else {})
    {
      var k :| 0 <= k < |ds'| && elems'[k].status == StatusOk && ds'[k].id == id;
      if k < |ds| {
        assert ds'[k] == ds[k] && elems'[k] == elems[k];
      }
    }
    forall id | id in ResolvedIds(ds, elems)
      ensures id in ResolvedIds(ds', elems')
    {
      var k :| 0 <= k < |ds| && elems[k].status == StatusOk && ds[k].id == id;
      assert ds'[k] == ds[k] && elems'[k] == elems[k];
    }
    if e.status == StatusOk {
      assert elems'[|ds|] == e && ds'[|ds|] == d;
    }
  }

  /** One iteration of the inner loop: an "OK" element puts an EXACT distance
      under the destination's id (replacing any earlier one), any other
      element appends the destination to the fallback list. */
  function Step(b: Batch, d: RTreeBase, e: Element): Batch
  {
    if e.status == StatusOk then Batch(b.distances[d.id := Distance(e.value, Exact)], b.fallback)
    else Batch(b.distances, b.fallback + [d])
  }

  /** The inner loop over a list of destinations and their elements, from state b. */
  function ClassifyInto(b: Batch, ds: seq<RTreeBase>, elems: seq<Element>): Batch
    requires |ds| == |elems|
    decreases |ds|
  {
    if ds == [] then b
    else Step(ClassifyInto(b, ds[..|ds| - 1], elems[..|ds| - 1]), ds[|ds| - 1], elems[|ds| - 1])
  }

  /** Every destination classified, starting from an empty map and list:
      the EXACT keys are the ids answered "OK", and the fallback list is
      every destination not answered "OK", in order. */
  function Classify(ds: seq<RTreeBase>, elems: seq<Element>): (r: Batch)
    requires |ds| == |elems|
    ensures r.distances.Keys == ResolvedIds(ds, elems)
    ensures r.fallback == NotOk(ds, elems)
  {
    ClassifyIntoKeys(Batch(map[], []), ds, elems);
    ClassifyIntoFallback(Batch(map[], []), ds, elems);
    ClassifyInto(Batch(map[], []), ds, elems)
  }

  /** The inner loop adds the ids answered "OK" to the keys of the map it starts from. */
  lemma {:induction false} ClassifyIntoKeys(b: Batch, ds: seq<RTreeBase>, elems: seq<Element>)
    requires |ds| == |elems|
    ensures ClassifyInto(b, ds, elems).distances.Keys == b.distances.Keys + ResolvedIds(ds, elems)
    decreases |ds|
  {
    if ds != [] {
      var n := |ds| - 1;
      ClassifyIntoKeys(b, ds[..n], elems[..n]);
      assert ds[..n] + [ds[n]] == ds && elems[..n] + [elems[n]] == elems;
      ResolvedIdsSnoc(ds[..n], elems[..n], ds[n], elems[n]);
    }
  }

  /** The inner loop appends the destinations not answered "OK", in order, to the list it starts from. */
  lemma {:induction false} ClassifyIntoFallback(b: Batch, ds: seq<RTreeBase>, elems: seq<Element>)
    requires |ds| == |elems|
    ensures ClassifyInto(b, ds, elems).fallback == b.fallback + NotOk(ds, elems)
    decreases |ds|
  {
    if ds != [] {
      var n := |ds| - 1;
      var front, efront := ds[..n], elems[..n];
      var added := if elems[n].status == StatusOk then [] else [ds[n]];
      ClassifyIntoFallback(b, front, efront);
      assert ClassifyInto(b, ds, elems).fallback == ClassifyInto(b, front, efront).fallback + added;
      assert front + [ds[n]] == ds && efront + [elems[n]] == elems;
      NotOkSnoc(front, efront, ds[n], elems[n]);
      assert NotOk(ds, elems) == NotOk(front, efront) + added;
    }
  }

  /** One more destination extends the classification by one step. */
  lemma ClassifyIntoExtend(b: Batch, ds: seq<RTreeBase>, elems: seq<Element>, d: RTreeBase, e: Element)
    requires |ds| == |elems|
    ensures ClassifyInto(b, ds + [d], elems + [e]) == Step(ClassifyInto(b, ds, elems), d, e)
  {
    assert (ds + [d])[..|ds|] == ds;
    assert (elems + [e])[..|ds|] == elems;
  }

  /** One more iteration of the inner loop over destinations[i..j]. */
  lemma ClassifySliceExtend(b: Batch, ds: seq<RTreeBase>, i: nat, j: nat, got: seq<Element>, e: Element)
    requires i <= j < |ds| && |got| == j - i
    ensures ClassifyInto(b, ds[i..j + 1], got + [e]) == Step(ClassifyInto(b, ds[i..j], got), ds[j], e)
  {
    assert ds[i..j + 1] == ds[i..j] + [ds[j]];
    ClassifyIntoExtend(b, ds[i..j], got, ds[j], e);
  }

  /** Classifying two lists one after the other is classifying their concatenation. */
  lemma {:induction false} ClassifyAppend(b: Batch, ds: seq<RTreeBase>, elems: seq<Element>, ds': seq<RTreeBase>, elems': seq<Element>)
    requires |ds| == |elems| && |ds'| == |elems'|
    ensures ClassifyInto(b, ds + ds', elems + elems') == ClassifyInto(ClassifyInto(b, ds, elems), ds', elems')
    decreases |ds'|
  {
    if ds' == [] {
      assert ds + ds' == ds && elems + elems' == elems;
    } else {
      var m := |ds'| - 1;
      ClassifyAppend(b, ds, elems, ds'[..m], elems'[..m]);
      assert ds + ds' == (ds + ds'[..m]) + [ds'[m]];
      assert elems + elems' == (elems + elems'[..m]) + [elems'[m]];
      ClassifyIntoExtend(b, ds + ds'[..m], elems + elems'[..m], ds'[m], elems'[m]);
      assert ds' == ds'[..m] + [ds'[m]] && elems' == elems'[..m] + [elems'[m]];
      ClassifyIntoExtend(ClassifyInto(b, ds, elems), ds'[..m], elems'[..m], ds'[m], elems'[m]);
    }
  }

  /** k is the last position of a destination with this id. */
  predicate LastIndex(ds: seq<RTreeBase>, id: string, k: int)
  {
    0 <= k < |ds| && ds[k].id == id && forall k' :: k < k' < |ds| ==> ds[k'].id != id
  }

  /** calculateHaversineDistance: one ESTIMATE per destination id, computed
      from the destination's projected point (a later destination with the
      same id replacing an earlier one); an unsupported entry fails it. */
  function HaversineDistances(origin: PointOfInterest, ds: seq<RTreeBase>, haversine: Haversine): (r: Result<map<string, Distance>>)
    ensures r.Err? <==> exists k :: 0 <= k < |ds| && !Supported(ds[k])
    ensures r.Err? ==> r.error == UnsupportedOperation
    ensures r.Ok? ==> r.value.Keys == Ids(ds)
    decreases |ds|
  {
    if ds == [] then Ok(map[])
    else
      var n := |ds| - 1;
      assert Ids(ds) == Ids(ds[..n]) + {ds[n].id};
      match HaversineDistances(origin, ds[..n], haversine)
      case Err(e) => Err(e)
      case Ok(m) =>
        match ClosestMBRPoint(origin, ds[n])
        case Err(e) => Err(e)
        case Ok(p) => Ok(m[ds[n].id := Distance(haversine(origin, p), Estimate)])
  }

  /** Map.merge with (v1, v2) -> v1 for every fallback entry: an id already
      present keeps its value, a new id gets the fallback value. */
  function MergeKeepExisting(distances: map<string, Distance>, fallback: map<string, Distance>): (r: map<string, Distance>)
    ensures r.Keys == distances.Keys + fallback.Keys
    ensures forall id :: id in distances ==> r[id] == distances[id]
    ensures forall id :: id in fallback && id !in distances ==> r[id] == fallback[id]
  {
    fallback + distances
  }

  /** The batch loop: every window queried and classified, or the first failure. */
  function Batches(origin: PointOfInterest, ds: seq<RTreeBase>, coords: seq<GeoPoint>, oracle: Oracle): (r: Result<Batch>)
    requires |coords| == |ds|
    ensures r.Ok? <==> Outcomes(origin, coords, oracle).Ok?
    ensures r.Err? ==> r.error == Outcomes(origin, coords, oracle).error
    ensures r.Ok? ==> r.value.distances.Keys == ResolvedIds(ds, Outcomes(origin, coords, oracle).value)
    ensures r.Ok? ==> r.value.fallback == NotOk(ds, Outcomes(origin, coords, oracle).value)
  {
    match Outcomes(origin, coords, oracle)
    case Err(e) => Err(e)
    case Ok(elems) => Ok(Classify(ds, elems))
  }

  /** calculateGoogleDistance: the map from destination id to Distance, or
      the exception the service throws. */
  function GoogleDistance(origin: PointOfInterest, ds: seq<RTreeBase>, oracle: Oracle, haversine: Haversine): (r: Result<map<string, Distance>>)
    ensures (exists k :: 0 <= k < |ds| && !Supported(ds[k])) ==> r == Err(UnsupportedOperation)
    ensures r.Ok? ==> Project(origin, ds).Ok? && Outcomes(origin, Project(origin, ds).value, oracle).Ok?
  {
    match Project(origin, ds)
    case Err(e) => Err(e)
    case Ok(coords) =>
      match Batches(origin, ds, coords, oracle)
      case Err(e) => Err(e)
      case Ok(b) => Complete(origin, b, haversine)
  }

  /** The end of calculateGoogleDistance: the EXACT map as it is when the
      fallback list is empty, otherwise merged with the estimates of the
      fallback destinations. */
  function Complete(origin: PointOfInterest, b: Batch, haversine: Haversine): (r: Result<map<string, Distance>>)
    ensures r.Err? <==> exists t :: 0 <= t < |b.fallback| && !Supported(b.fallback[t])
    ensures r.Err? ==> r.error == UnsupportedOperation
    ensures r.Ok? ==> r.value.Keys == b.distances.Keys + Ids(b.fallback)
    ensures r.Ok? ==> forall id :: id in b.distances ==> r.value[id] == b.distances[id]
  {
    if b.fallback == [] then Ok(b.distances)
    else
      match HaversineDistances(origin, b.fallback, haversine)
      case Err(e) => Err(e)
      case Ok(estimates) => Ok(MergeKeepExisting(b.distances, estimates))
  }

  // ---------------------------------------------------------------------------
  // What the batch loop gathers and classifies
  // ---------------------------------------------------------------------------

  /** Once a window has failed, every later prefix of windows fails with the same error. */
  lemma {:induction false} GatherErrPersists(origin: PointOfInterest, coords: seq<GeoPoint>, oracle: Oracle, m: nat, m': nat)
    requires m <= m' <= WindowCount(|coords|)
    requires GatherUpTo(origin, coords, m, oracle).Err?
    ensures GatherUpTo(origin, coords, m', oracle) == GatherUpTo(origin, coords, m, oracle)
    decreases m' - m
  {
    if m < m' {
      GatherErrPersists(origin, coords, oracle, m, m' - 1);
    }
  }

  /** The response of window j / 25 was usable, and its element j % 25 is e. */
  predicate AnsweredAt(origin: PointOfInterest, coords: seq<GeoPoint>, oracle: Oracle, j: nat, e: Element)
    requires j < |coords|
  {
    var s := BatchLimit * (j / BatchLimit);
    var response := oracle(origin, coords[s .. Min(|coords|, s + BatchLimit)]);
    && response.status == StatusOk
    && |response.rows| > 0
    && j % BatchLimit < |response.rows[0].elements|
    && response.rows[0].elements[j % BatchLimit] == e
  }

  /** Element j of the gathered sequence is element j % 25 of the response to
      the window holding destination j. */
  lemma {:induction false} GatherAt(origin: PointOfInterest, coords: seq<GeoPoint>, oracle: Oracle, m: nat, j: nat)
    requires m <= WindowCount(|coords|)
    requires GatherUpTo(origin, coords, m, oracle).Ok?
    requires j < |GatherUpTo(origin, coords, m, oracle).value|
    ensures j < |coords| && AnsweredAt(origin, coords, oracle, j, GatherUpTo(origin, coords, m, oracle).value[j])
  {
    var elems := GatherUpTo(origin, coords, m, oracle).value;
    var prev := GatherUpTo(origin, coords, m - 1, oracle).value;
    var s := BatchLimit * (m - 1);
    if j < |prev| {
      GatherAt(origin, coords, oracle, m - 1, j);
    } else {
      WindowStart(|coords|, m - 1);
      var got := WindowElements(origin, coords, s, Min(|coords|, s + BatchLimit), oracle).value;
      assert elems == prev + got;
      PositionInWindow(m - 1, j);
      assert elems[j] == got[j - s];
    }
  }

  /** After one more window, the batch state is the classification of every destination so far. */
  lemma ClassifyWindowAfter(ds: seq<RTreeBase>, i: nat, upper: nat, elems: seq<Element>, got: seq<Element>)
    requires i <= upper <= |ds| && |elems| == i && |got| == upper - i
    ensures Classify(ds[..upper], elems + got) == ClassifyInto(Classify(ds[..i], elems), ds[i..upper], got)
  {
    assert ds[..upper] == ds[..i] + ds[i..upper];
    ClassifyAppend(Batch(map[], []), ds[..i], elems, ds[i..upper], got);
  }

  /** The fallback list holds exactly the destinations whose element is not "OK". */
  lemma {:induction false} ClassifyFallback(ds: seq<RTreeBase>, elems: seq<Element>)
    requires |ds| == |elems|
    ensures forall x :: x in Classify(ds, elems).fallback ==>
              exists k :: 0 <= k < |ds| && ds[k] == x && elems[k].status != StatusOk
    ensures forall k :: 0 <= k < |ds| && elems[k].status != StatusOk ==> ds[k] in Classify(ds, elems).fallback
    decreases |ds|
  {
    if ds != [] {
      var n := |ds| - 1;
      ClassifyFallback(ds[..n], elems[..n]);
      var prev := Classify(ds[..n], elems[..n]);
      forall x | x in Classify(ds, elems).fallback
        ensures exists k :: 0 <= k < |ds| && ds[k] == x && elems[k].status != StatusOk
      {
        if x in prev.fallback {
          var k :| 0 <= k < n && ds[..n][k] == x && elems[..n][k].status != StatusOk;
          assert ds[k] == x && elems[k].status != StatusOk;
        } else {
          assert ds[n] == x && elems[n].status != StatusOk;
        }
      }
      forall k | 0 <= k < |ds| && elems[k].status != StatusOk
        ensures ds[k] in Classify(ds, elems).fallback
      {
        if k < n {
          assert ds[..n][k] == ds[k] && elems[..n][k] == elems[k];
        }
      }
    }
  }

  /** The EXACT map holds exactly the ids whose destination got an "OK" element. */
  lemma {:induction false} ClassifyKeys(ds: seq<RTreeBase>, elems: seq<Element>)
    requires |ds| == |elems|
    ensures Classify(ds, elems).distances.Keys == ResolvedIds(ds, elems)
    ensures forall id :: id in Classify(ds, elems).distances ==> Classify(ds, elems).distances[id].kind == Exact
    decreases |ds|
  {
    if ds != [] {
      var n := |ds| - 1;
      ClassifyKeys(ds[..n], elems[..n]);
      var extra: set<string> := if elems[n].status == StatusOk then {ds[n].id} else {};
      assert ResolvedIds(ds, elems) == ResolvedIds(ds[..n], elems[..n]) + extra by {
        forall id | id in ResolvedIds(ds, elems)
          ensures id in ResolvedIds(ds[..n], elems[..n]) + extra
        {
          var k :| 0 <= k < |ds| && elems[k].status == StatusOk && ds[k].id == id;
          if k < n {
            assert ds[..n][k] == ds[k] && elems[..n][k] == elems[k];
          }
        }
        forall id | id in ResolvedIds(ds[..n], elems[..n])
          ensures id in ResolvedIds(ds, elems)
        {
          var k :| 0 <= k < n && elems[..n][k].status == StatusOk && ds[..n][k].id == id;
          assert elems[k].status == StatusOk && ds[k].id == id;
        }
      }
    }
  }

  /** The EXACT value under an id comes from the last "OK" element among the
      destinations with that id. */
  lemma {:induction false} ClassifyExactAt(ds: seq<RTreeBase>, elems: seq<Element>, k: nat)
    requires |ds| == |elems| && k < |ds|
    requires LastOk(ds, elems, ds[k].id, k)
    ensures ds[k].id in Classify(ds, elems).distances
    ensures Classify(ds, elems).distances[ds[k].id] == Distance(elems[k].value, Exact)
    decreases |ds|
  {
    var n := |ds| - 1;
    if k < n {
      assert ds[..n][k] == ds[k] && elems[..n][k] == elems[k];
      assert LastOk(ds[..n], elems[..n], ds[k].id, k);
      ClassifyExactAt(ds[..n], elems[..n], k);
    }
  }

  /** The ESTIMATE under an id comes from the last destination with that id. */
  lemma {:induction false} HaversineAt(origin: PointOfInterest, ds: seq<RTreeBase>, haversine: Haversine, k: nat)
    requires HaversineDistances(origin, ds, haversine).Ok?
    requires k < |ds| && LastIndex(ds, ds[k].id, k)
    ensures Supported(ds[k])
    ensures HaversineDistances(origin, ds, haversine).value[ds[k].id]
            == Distance(haversine(origin, ClosestMBRPoint(origin, ds[k]).value), Estimate)
    decreases |ds|
  {
    var n := |ds| - 1;
    if k < n {
      assert ds[..n][k] == ds[k];
      assert LastIndex(ds[..n], ds[k].id, k);
      HaversineAt(origin, ds[..n], haversine, k);
    }
  }

  /** The requests, one after another, are exactly the projected destinations. */
  lemma {:induction false} RequestsPrefix(coords: seq<GeoPoint>, m: nat)
    requires m <= WindowCount(|coords|)
    ensures Flatten(Requests(coords)[..m]) == coords[..Min(|coords|, BatchLimit * m)]
  {
    if m > 0 {
      var r := Requests(coords);
      RequestsPrefix(coords, m - 1);
      assert r[..m][..m - 1] == r[..m - 1];
      assert BatchLimit * (m - 1) < |coords|;
      assert coords[..Min(|coords|, BatchLimit * m)]
          == coords[..BatchLimit * (m - 1)] + coords[BatchLimit * (m - 1) .. Min(|coords|, BatchLimit * m)];
    }
  }

  // ---------------------------------------------------------------------------
  // The service's loops
  // ---------------------------------------------------------------------------

  /** The forEach over the fallback estimates: distances.merge(key, value, (v1, v2) -> v1).
      Keys are visited in an arbitrary order, which does not change the result. */
  method MergeFallback(distances: map<string, Distance>, estimates: map<string, Distance>)
    returns (merged: map<string, Distance>)
    ensures merged == MergeKeepExisting(distances, estimates)
  {
    merged := distances;
    var todo := estimates.Keys;
    while todo != {}
      invariant todo <= estimates.Keys
      invariant merged.Keys == distances.Keys + (estimates.Keys - todo)
      invariant forall id :: id in distances ==> merged[id] == distances[id]
      invariant forall id :: id in estimates.Keys - todo && id !in distances ==> merged[id] == estimates[id]
    {
      var key :| key in todo;
      if key !in merged {
        merged := merged[key := estimates[key]];
      }
      todo := todo - {key};
    }
    var expected := MergeKeepExisting(distances, estimates);
    assert merged.Keys == expected.Keys;
    forall id | id in merged
      ensures merged[id] == expected[id]
    {
    }
  }

  /** calculateHaversineDistance: one ESTIMATE per destination. */
  method CalculateHaversineDistance(origin: PointOfInterest, destinations: seq<RTreeBase>, haversine: Haversine)
    returns (res: Result<map<string, Distance>>)
    ensures res == HaversineDistances(origin, destinations, haversine)
  {
    var distances: map<string, Distance> := map[];
    var t := 0;
    while t < |destinations|
      invariant 0 <= t <= |destinations|
      invariant HaversineDistances(origin, destinations[..t], haversine) == Ok(distances)
    {
      var closest := ClosestMBRPoint(origin, destinations[t]);
      if closest.Err? {
        return Err(closest.error);
      }
      assert destinations[..t + 1][..t] == destinations[..t];
      distances := distances[destinations[t].id := Distance(haversine(origin, closest.value), Estimate)];
      t := t + 1;
    }
    assert destinations[..t] == destinations;
    return Ok(distances);
  }

  /** The first loop of calculateGoogleDistance: the projected coordinate of
      every destination, in order. */
  method ProjectDestinations(origin: PointOfInterest, destinations: seq<RTreeBase>)
    returns (res: Result<seq<GeoPoint>>)
    ensures res == Project(origin, destinations)
  {
    var coords: seq<GeoPoint> := [];
    var t := 0;
    while t < |destinations|
      invariant 0 <= t <= |destinations|
      invariant Project(origin, destinations[..t]) == Ok(coords)
    {
      var closest := ClosestMBRPoint(origin, destinations[t]);
      if closest.Err? {
        return Err(closest.error);
      }
      assert destinations[..t + 1][..t] == destinations[..t];
      coords := coords + [closest.value];
      t := t + 1;
    }
    assert destinations[..t] == destinations;
    return Ok(coords);
  }

  /** The inner loop of calculateGoogleDistance over the window [i, upper):
      element j % 25 of the response's first row is classified for
      destination j, starting from the state batch. */
  method ClassifyWindow(destinations: seq<RTreeBase>, i: nat, upper: nat, result: DistanceMatrixResult, batch: Batch)
    returns (res: Result<Batch>)
    requires i % BatchLimit == 0 && i < upper <= i + BatchLimit && upper <= |destinations|
    requires result.status == StatusOk
    ensures res.Err? <==> ResponseElements(result, upper - i).Err?
    ensures res.Err? ==> res.error == ResponseElements(result, upper - i).error
    ensures res.Ok? ==> res.value == ClassifyInto(batch, destinations[i..upper], ResponseElements(result, upper - i).value)
  {
    var distances := batch.distances;
    var fallback := batch.fallback;
    ghost var got: seq<Element> := [];
    var j := i;
    while j < upper
      invariant i <= j <= upper
      invariant |got| == j - i
      invariant j > i ==> ResponseElements(result, j - i) == Ok(got)
      invariant ClassifyInto(batch, destinations[i..j], got) == Batch(distances, fallback)
    {
      OffsetInWindow(i, j);
      var read := ElementAt(result, j % BatchLimit);
      ResponseElementsNext(result, got, j - i, upper - i);
      if read.Err? {
        return Err(read.error);
      }
      var element := read.value;
      ClassifySliceExtend(batch, destinations, i, j, got, element);
      if element.status == StatusOk {
        distances := distances[destinations[j].id := Distance(element.value, Exact)];
      } else {
        fallback := fallback + [destinations[j]];
      }
      got := got + [element];
      j := j + 1;
    }
    return Ok(Batch(distances, fallback));
  }

  /** The body of the batch loop of calculateGoogleDistance for the window
      [i, upper): one call to the service, the status check, then the inner
      loop, starting from the state batch. */
  method ProcessWindow(origin: PointOfInterest, destinations: seq<RTreeBase>, coords: seq<GeoPoint>, oracle: Oracle,
                       i: nat, upper: nat, batch: Batch)
    returns (res: Result<Batch>)
    requires |coords| == |destinations|
    requires i % BatchLimit == 0 && i < upper <= i + BatchLimit && upper <= |destinations|
    ensures res.Err? <==> WindowElements(origin, coords, i, upper, oracle).Err?
    ensures res.Err? ==> res.error == WindowElements(origin, coords, i, upper, oracle).error
    ensures res.Ok? ==> res.value == ClassifyInto(batch, destinations[i..upper], WindowElements(origin, coords, i, upper, oracle).value)
  {
    var result := oracle(origin, coords[i..upper]);
    if result.status != StatusOk {
      return Err(ExternalServiceUnavailable(result.errorMessage));
    }
    res := ClassifyWindow(destinations, i, upper, result, batch);
  }

  /** Window m is where the batch loop stops: every window before it was
      usable, and reading its response fails. */
  predicate FirstFailure(origin: PointOfInterest, coords: seq<GeoPoint>, oracle: Oracle, m: nat)
  {
    && m < WindowCount(|coords|)
    && GatherUpTo(origin, coords, m, oracle).Ok?
    && (WindowStart(|coords|, m);
        WindowElements(origin, coords, BatchLimit * m, Min(|coords|, BatchLimit * m + BatchLimit), oracle).Err?)
  }

  /** The state of the batch loop after k windows: every one of them was
      usable, and batch is the classification of their destinations. */
  ghost predicate GatheredAt(origin: PointOfInterest, ds: seq<RTreeBase>, coords: seq<GeoPoint>, oracle: Oracle, k: nat, batch: Batch)
    requires |coords| == |ds|
  {
    && k <= WindowCount(|ds|)
    && GatherUpTo(origin, coords, k, oracle).Ok?
    && Classify(ds[..Min(|ds|, BatchLimit * k)], GatherUpTo(origin, coords, k, oracle).value) == batch
  }

  /** One more window of the batch loop. */
  lemma GatherNext(origin: PointOfInterest, coords: seq<GeoPoint>, oracle: Oracle, k: nat)
    requires k < WindowCount(|coords|)
    requires GatherUpTo(origin, coords, k, oracle).Ok?
    ensures BatchLimit * k < Min(|coords|, BatchLimit * k + BatchLimit) <= |coords|
    ensures WindowElements(origin, coords, BatchLimit * k, Min(|coords|, BatchLimit * k + BatchLimit), oracle).Err? ==>
            GatherUpTo(origin, coords, k + 1, oracle)
            == Err(WindowElements(origin, coords, BatchLimit * k, Min(|coords|, BatchLimit * k + BatchLimit), oracle).error)
    ensures WindowElements(origin, coords, BatchLimit * k, Min(|coords|, BatchLimit * k + BatchLimit), oracle).Ok? ==>
            GatherUpTo(origin, coords, k + 1, oracle)
            == Ok(GatherUpTo(origin, coords, k, oracle).value
                  + WindowElements(origin, coords, BatchLimit * k, Min(|coords|, BatchLimit * k + BatchLimit), oracle).value)
  {
    WindowStart(|coords|, k);
  }

  /** A usable window k moves the loop state to k + 1. */
  lemma GatheredNext(origin: PointOfInterest, ds: seq<RTreeBase>, coords: seq<GeoPoint>, oracle: Oracle, k: nat, batch: Batch)
    requires |coords| == |ds| && k < WindowCount(|ds|)
    requires GatheredAt(origin, ds, coords, oracle, k, batch)
    requires WindowElements(origin, coords, BatchLimit * k, Min(|ds|, BatchLimit * k + BatchLimit), oracle).Ok?
    ensures GatheredAt(origin, ds, coords, oracle, k + 1,
              ClassifyInto(batch, ds[BatchLimit * k .. Min(|ds|, BatchLimit * k + BatchLimit)],
                           WindowElements(origin, coords, BatchLimit * k, Min(|ds|, BatchLimit * k + BatchLimit), oracle).value))
  {
    WindowStart(|ds|, k);
    var i := BatchLimit * k;
    var upper := Min(|ds|, i + BatchLimit);
    ClassifyWindowAfter(ds, i, upper, GatherUpTo(origin, coords, k, oracle).value,
                        WindowElements(origin, coords, i, upper, oracle).value);
  }

  /** A failing window k fails the whole batch loop with its own error. */
  lemma GatheredFails(origin: PointOfInterest, ds: seq<RTreeBase>, coords: seq<GeoPoint>, oracle: Oracle, k: nat, batch: Batch)
    requires |coords| == |ds| && k < WindowCount(|ds|)
    requires GatheredAt(origin, ds, coords, oracle, k, batch)
    requires WindowElements(origin, coords, BatchLimit * k, Min(|ds|, BatchLimit * k + BatchLimit), oracle).Err?
    ensures Batches(origin, ds, coords, oracle)
            == Err(WindowElements(origin, coords, BatchLimit * k, Min(|ds|, BatchLimit * k + BatchLimit), oracle).error)
    ensures FirstFailure(origin, coords, oracle, k)
  {
    WindowStart(|ds|, k);
    GatherErrPersists(origin, coords, oracle, k + 1, WindowCount(|ds|));
  }

  /** After the last window the loop state is the result of the batch loop. */
  lemma GatheredAll(origin: PointOfInterest, ds: seq<RTreeBase>, coords: seq<GeoPoint>, oracle: Oracle, batch: Batch)
    requires |coords| == |ds|
    requires GatheredAt(origin, ds, coords, oracle, WindowCount(|ds|), batch)
    ensures Batches(origin, ds, coords, oracle) == Ok(batch)
  {
    WindowStart(|ds|, WindowCount(|ds|));
    assert ds[..Min(|ds|, BatchLimit * WindowCount(|ds|))] == ds;
  }

  /** The call log after one more window. */
  lemma RequestsNext(coords: seq<GeoPoint>, k: nat)
    requires k < WindowCount(|coords|)
    ensures BatchLimit * k < Min(|coords|, BatchLimit * k + BatchLimit) <= |coords|
    ensures Requests(coords)[..k + 1] == Requests(coords)[..k] + [coords[BatchLimit * k .. Min(|coords|, BatchLimit * k + BatchLimit)]]
    ensures Requests(coords)[..k + 1] <= Requests(coords)
  {
  }

  /** The batch loop of calculateGoogleDistance: i = 0, 25, 50, ... below
      the number of destinations. The ghost result sent lists the destination
      lists passed to the service, in order. */
  method RunBatches(origin: PointOfInterest, destinations: seq<RTreeBase>, coords: seq<GeoPoint>, oracle: Oracle)
    returns (res: Result<Batch>, ghost sent: seq<seq<GeoPoint>>)
    requires |coords| == |destinations|
    ensures res == Batches(origin, destinations, coords, oracle)
    ensures sent <= Requests(coords)
    ensures res.Ok? ==> sent == Requests(coords)
    ensures res.Err? ==> 0 < |sent| && FirstFailure(origin, coords, oracle, |sent| - 1)
  {
    sent := [];
    var n := |destinations|;
    var batch := Batch(map[], []);
    ghost var k: nat := 0;
    var i := 0;
    while i < n
      invariant i == BatchLimit * k && k <= WindowCount(n)
      invariant GatheredAt(origin, destinations, coords, oracle, k, batch)
      invariant sent == Requests(coords)[..k]
    {
      WindowStart(n, k);
      PositionInWindow(k, i);
      var upper := Min(n, i + BatchLimit);
      var processed := ProcessWindow(origin, destinations, coords, oracle, i, upper, batch);
      RequestsNext(coords, k);
      sent := sent + [coords[i..upper]];
      if processed.Err? {
        GatheredFails(origin, destinations, coords, oracle, k, batch);
        return Err(processed.error), sent;
      }
      GatheredNext(origin, destinations, coords, oracle, k, batch);
      batch := processed.value;
      k := k + 1;
      i := i + BatchLimit;
    }
    WindowStart(n, k);
    GatheredAll(origin, destinations, coords, oracle, batch);
    assert Requests(coords)[..k] == Requests(coords);
    return Ok(batch), sent;
  }

  /** calculateGoogleDistance: project every destination, query the service
      window by window, classify each element, then estimate and merge the
      fallback destinations. */
  method CalculateGoogleDistance(origin: PointOfInterest, destinations: seq<RTreeBase>, oracle: Oracle, haversine: Haversine)
    returns (res: Result<map<string, Distance>>, ghost sent: seq<seq<GeoPoint>>)
    ensures res == GoogleDistance(origin, destinations, oracle, haversine)
    ensures Project(origin, destinations).Err? ==> sent == []
    ensures Project(origin, destinations).Ok? ==> sent <= Requests(Project(origin, destinations).value)
    ensures res.Ok? ==> sent == Requests(Project(origin, destinations).value)
    ensures Project(origin, destinations).Ok? && Batches(origin, destinations, Project(origin, destinations).value, oracle).Err?
            ==> 0 < |sent| && FirstFailure(origin, Project(origin, destinations).value, oracle, |sent| - 1)
  {
    sent := [];
    var projected := ProjectDestinations(origin, destinations);
    if projected.Err? {
      return Err(projected.error), sent;
    }
    var batches;
    batches, sent := RunBatches(origin, destinations, projected.value, oracle);
    if batches.Err? {
      return Err(batches.error), sent;
    }
    var distances := batches.value.distances;
    var fallback := batches.value.fallback;
    if fallback != [] {
      var estimates := CalculateHaversineDistance(origin, fallback, haversine);
      if estimates.Err? {
        return Err(estimates.error), sent;
      }
      distances := MergeFallback(distances, estimates.value);
    }
    res := Ok(distances);
  }
}
