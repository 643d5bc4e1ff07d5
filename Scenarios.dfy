/** Worked cases of calculateGoogleDistance, the projection and the batching. */
module Scenarios {
  import opened DistanceTypes
  import opened Projection
  import opened Batching
  import opened DistanceService

  const Origin := PointOfInterest(0.0, 0.0)
  const Here := GeoPoint(1.0, 1.0)

  /** A service answering every request with the same response. */
  function Answering(response: DistanceMatrixResult): Oracle
  {
    (o: PointOfInterest, cs: seq<GeoPoint>) => response
  }

  /** A haversine stand-in returning a fixed number of metres. */
  function Flat(metres: nat): Haversine
  {
    (o: PointOfInterest, g: GeoPoint) => metres
  }

  /** A single leaf projects onto its own point. */
  lemma ProjectLeaf(id: string, p: GeoPoint)
    ensures Project(Origin, [RTreeLeaf(id, p)]) == Ok([p])
  {
    var ds := [RTreeLeaf(id, p)];
    assert Supported(ds[0]);
    var r := Project(Origin, ds);
    assert r.Ok?;
    assert r.value == [p];
  }

  /** Two leaves project onto their own points. */
  lemma ProjectLeaves(d0: RTreeBase, d1: RTreeBase)
    requires d0.RTreeLeaf? && d1.RTreeLeaf?
    ensures Project(Origin, [d0, d1]) == Ok([d0.geopoint, d1.geopoint])
  {
    var ds := [d0, d1];
    assert Supported(ds[0]) && Supported(ds[1]);
    var r := Project(Origin, ds);
    assert r.Ok?;
    assert r.value == [d0.geopoint, d1.geopoint];
  }

  /** Up to 25 destinations make one request, whose first elements are the outcomes. */
  lemma SingleWindow(coords: seq<GeoPoint>, oracle: Oracle)
    requires 0 < |coords| <= BatchLimit
    ensures Outcomes(Origin, coords, oracle) == ResponseElements(oracle(Origin, coords), |coords|)
  {
    assert WindowCount(|coords|) == 1;
    assert coords[0..|coords|] == coords;
    assert GatherUpTo(Origin, coords, 0, oracle) == Ok([]);
    if ResponseElements(oracle(Origin, coords), |coords|).Ok? {
      assert [] + ResponseElements(oracle(Origin, coords), |coords|).value
             == ResponseElements(oracle(Origin, coords), |coords|).value;
    }
  }

  /** The inner loop over one destination. */
  lemma ClassifyOne(d: RTreeBase, e: Element)
    ensures Classify([d], [e]) == Step(Batch(map[], []), d, e)
  {
    ClassifyIntoExtend(Batch(map[], []), [], [], d, e);
    assert [] + [d] == [d] && [] + [e] == [e];
  }

  /** The inner loop over two destinations. */
  lemma ClassifyTwo(d0: RTreeBase, e0: Element, d1: RTreeBase, e1: Element)
    ensures Classify([d0, d1], [e0, e1]) == Step(Step(Batch(map[], []), d0, e0), d1, e1)
  {
    ClassifyOne(d0, e0);
    ClassifyIntoExtend(Batch(map[], []), [d0], [e0], d1, e1);
    assert [d0] + [d1] == [d0, d1] && [e0] + [e1] == [e0, e1];
  }

  /** The estimate of a single leaf. */
  lemma EstimateOne(id: string, p: GeoPoint, haversine: Haversine)
    ensures HaversineDistances(Origin, [RTreeLeaf(id, p)], haversine) == Ok(map[id := Distance(haversine(Origin, p), Estimate)])
  {
    assert [RTreeLeaf(id, p)][..0] == [];
  }

  /** One leaf, answered "OK": its distance is the service's value, EXACT. */
  lemma AnsweredLeafIsExact()
    ensures GoogleDistance(Origin, [RTreeLeaf("p1", Here)],
                           Answering(DistanceMatrixResult(StatusOk, "", [Row([Element(StatusOk, 111000)])])), Flat(0))
            == Ok(map["p1" := Distance(111000, Exact)])
  {
    var oracle := Answering(DistanceMatrixResult(StatusOk, "", [Row([Element(StatusOk, 111000)])]));
    ProjectLeaf("p1", Here);
    SingleWindow([Here], oracle);
    assert [Element(StatusOk, 111000)][..1] == [Element(StatusOk, 111000)];
    ClassifyOne(RTreeLeaf("p1", Here), Element(StatusOk, 111000));
  }

  /** One leaf with a single-element response: the batch loop classifies that element. */
  lemma OneLeafBatch(id: string, e: Element)
    ensures Batches(Origin, [RTreeLeaf(id, Here)], [Here], Answering(DistanceMatrixResult(StatusOk, "", [Row([e])])))
            == Ok(Step(Batch(map[], []), RTreeLeaf(id, Here), e))
  {
    var oracle := Answering(DistanceMatrixResult(StatusOk, "", [Row([e])]));
    SingleWindow([Here], oracle);
    assert [e][..1] == [e];
    assert Outcomes(Origin, [Here], oracle) == Ok([e]);
    ClassifyOne(RTreeLeaf(id, Here), e);
  }

  /** The end step with an empty EXACT map and one fallback leaf gives its estimate. */
  lemma OneFallbackComplete(id: string, metres: nat)
    ensures Complete(Origin, Batch(map[], [RTreeLeaf(id, Here)]), Flat(metres))
            == Ok(map[id := Distance(metres, Estimate)])
  {
    EstimateOne(id, Here, Flat(metres));
    assert Flat(metres)(Origin, Here) == metres;
    assert MergeKeepExisting(map[], map[id := Distance(metres, Estimate)]) == map[id := Distance(metres, Estimate)];
  }

  /** One leaf whose element is "ZERO_RESULTS": it falls back to the
      haversine estimate, tagged ESTIMATE. */
  lemma UnansweredLeafIsEstimated()
    ensures GoogleDistance(Origin, [RTreeLeaf("p1", Here)],
                           Answering(DistanceMatrixResult(StatusOk, "", [Row([Element("ZERO_RESULTS", 0)])])), Flat(157000))
            == Ok(map["p1" := Distance(157000, Estimate)])
  {
    ProjectLeaf("p1", Here);
    OneLeafBatch("p1", Element("ZERO_RESULTS", 0));
    assert [] + [RTreeLeaf("p1", Here)] == [RTreeLeaf("p1", Here)];
    OneFallbackComplete("p1", 157000);
  }

  /** A response whose overall status is not "OK" fails the call with the
      service's error message. */
  lemma OverQueryLimitFails()
    ensures GoogleDistance(Origin, [RTreeLeaf("p1", Here)],
                           Answering(DistanceMatrixResult("OVER_QUERY_LIMIT", "quota exceeded", [])), Flat(0))
            == Err(ExternalServiceUnavailable("quota exceeded"))
  {
    ProjectLeaf("p1", Here);
    SingleWindow([Here], Answering(DistanceMatrixResult("OVER_QUERY_LIMIT", "quota exceeded", [])));
  }

  /** A response with status "OK" but no rows fails the element lookup. */
  lemma MissingRowFails()
    ensures GoogleDistance(Origin, [RTreeLeaf("p1", Here)],
                           Answering(DistanceMatrixResult(StatusOk, "", [])), Flat(0))
            == Err(IndexOutOfBounds)
  {
    ProjectLeaf("p1", Here);
    SingleWindow([Here], Answering(DistanceMatrixResult(StatusOk, "", [])));
  }

  /** No candidates: no request is sent and the map is empty. */
  lemma NoCandidates(oracle: Oracle, haversine: Haversine)
    ensures GoogleDistance(Origin, [], oracle, haversine) == Ok(map[])
    ensures Requests([]) == []
  {
    assert WindowCount(0) == 0;
  }

  /** An entry that is neither node nor leaf cannot be projected. */
  lemma OtherEntryUnsupported(oracle: Oracle, haversine: Haversine)
    ensures GoogleDistance(Origin, [RTreeLeaf("p1", Here), OtherEntry("x")], oracle, haversine)
            == Err(UnsupportedOperation)
  {
    var ds := [RTreeLeaf("p1", Here), OtherEntry("x")];
    assert !Supported(ds[1]);
  }

  /** Two destinations with one id, the first answered and the second not:
      the EXACT value is kept over the estimate. */
  lemma DuplicateIdKeepsExact()
    ensures GoogleDistance(Origin, [RTreeLeaf("p", Here), RTreeLeaf("p", Here)],
                           Answering(DistanceMatrixResult(StatusOk, "", [Row([Element(StatusOk, 100), Element("NOT_FOUND", 0)])])),
                           Flat(900))
            == Ok(map["p" := Distance(100, Exact)])
  {
    var d := RTreeLeaf("p", Here);
    var elems := [Element(StatusOk, 100), Element("NOT_FOUND", 0)];
    var oracle := Answering(DistanceMatrixResult(StatusOk, "", [Row(elems)]));
    ProjectLeaves(d, d);
    SingleWindow([Here, Here], oracle);
    assert elems[..2] == elems;
    ClassifyTwo(d, elems[0], d, elems[1]);
    assert [] + [d] == [d];
    EstimateOne("p", Here, Flat(900));
    assert MergeKeepExisting(map["p" := Distance(100, Exact)], map["p" := Distance(900, Estimate)])
           == map["p" := Distance(100, Exact)];
  }

  /** A point outside the rectangle is clamped onto its nearest edge. */
  lemma ClampOntoEdge()
    ensures ClosestMBRPoint(PointOfInterest(5.0, -2.0),
                            RTreeNode("n", Mbr(GeoPoint(1.0, 0.0), GeoPoint(3.0, 4.0))))
            == Ok(GeoPoint(3.0, 0.0))
  {
  }

  /** Thirty candidates are sent as a window of 25 and a window of 5;
      twenty-five fit in one. */
  lemma ThirtyCandidates()
    ensures Windows(30) == [(0, 25), (25, 30)]
    ensures Windows(25) == [(0, 25)]
  {
    assert WindowsFrom(50, 30) == [];
    assert WindowsFrom(25, 30) == [(25, 30)];
    assert WindowsFrom(25, 25) == [];
  }

  /** Thirty projected destinations go out as two requests, of 25 and of 5. */
  lemma ThirtyRequests(coords: seq<GeoPoint>)
    requires |coords| == 30
    ensures |Requests(coords)| == 2
    ensures Requests(coords)[0] == coords[..25] && Requests(coords)[1] == coords[25..]
  {
    assert WindowCount(30) == 2;
  }
}
