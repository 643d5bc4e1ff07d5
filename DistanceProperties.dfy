/** What calculateGoogleDistance and calculateHaversineDistance promise,
    proved about their specification functions. */
module DistanceProperties {
  import opened DistanceTypes
  import opened Projection
  import opened Batching
  import opened DistanceService

  /** Every fallback destination was projected before, so estimating it cannot fail. */
  lemma FallbackEstimable(origin: PointOfInterest, ds: seq<RTreeBase>, elems: seq<Element>, haversine: Haversine)
    requires Project(origin, ds).Ok? && |elems| == |ds|
    ensures HaversineDistances(origin, Classify(ds, elems).fallback, haversine).Ok?
  {
    var fallback := Classify(ds, elems).fallback;
    ClassifyFallback(ds, elems);
    forall t | 0 <= t < |fallback|
      ensures Supported(fallback[t])
    {
      assert fallback[t] in fallback;
      var k :| 0 <= k < |ds| && ds[k] == fallback[t] && elems[k].status != StatusOk;
      assert ClosestMBRPoint(origin, ds[k]).Ok?;
    }
  }

  /** Once projection and every batch succeeded, the result is the end
      step on the classified batch, and that step cannot fail. */
  lemma ResolutionShape(origin: PointOfInterest, ds: seq<RTreeBase>, oracle: Oracle, haversine: Haversine)
    requires Project(origin, ds).Ok?
    requires Outcomes(origin, Project(origin, ds).value, oracle).Ok?
    ensures var b := Classify(ds, Outcomes(origin, Project(origin, ds).value, oracle).value);
            && Complete(origin, b, haversine).Ok?
            && GoogleDistance(origin, ds, oracle, haversine) == Complete(origin, b, haversine)
  {
    FallbackEstimable(origin, ds, Outcomes(origin, Project(origin, ds).value, oracle).value, haversine);
  }

  /** All or nothing: a map comes back exactly when every destination could
      be projected and every batch answered usably. */
  lemma SucceedsIff(origin: PointOfInterest, ds: seq<RTreeBase>, oracle: Oracle, haversine: Haversine)
    ensures GoogleDistance(origin, ds, oracle, haversine).Ok?
            <==> Project(origin, ds).Ok? && Outcomes(origin, Project(origin, ds).value, oracle).Ok?
  {
    if Project(origin, ds).Ok? && Outcomes(origin, Project(origin, ds).value, oracle).Ok? {
      ResolutionShape(origin, ds, oracle, haversine);
    }
  }

  /** An entry that is neither node nor leaf makes the whole call fail with
      UnsupportedOperation, before any batch is sent. */
  lemma UnsupportedFails(origin: PointOfInterest, ds: seq<RTreeBase>, oracle: Oracle, haversine: Haversine, k: nat)
    requires k < |ds| && ds[k].OtherEntry?
    ensures GoogleDistance(origin, ds, oracle, haversine) == Err(UnsupportedOperation)
  {
    assert !Supported(ds[k]);
  }

  /** A batch whose overall status is not "OK" makes the whole call fail:
      no map is returned. */
  lemma UnavailableBatchFails(origin: PointOfInterest, ds: seq<RTreeBase>, oracle: Oracle, haversine: Haversine, k: nat)
    requires Project(origin, ds).Ok?
    requires k < WindowCount(|ds|)
    requires var coords := Project(origin, ds).value;
             oracle(origin, coords[BatchLimit * k .. Min(|ds|, BatchLimit * k + BatchLimit)]).status != StatusOk
    ensures GoogleDistance(origin, ds, oracle, haversine).Err?
  {
    var coords := Project(origin, ds).value;
    WindowStart(|ds|, k);
    if GatherUpTo(origin, coords, k, oracle).Err? {
      GatherErrPersists(origin, coords, oracle, k, WindowCount(|ds|));
    } else {
      GatherNext(origin, coords, oracle, k);
      GatherErrPersists(origin, coords, oracle, k + 1, WindowCount(|ds|));
    }
  }

  /** When the batches before it were usable, the first batch whose status
      is not "OK" fails the call with ExternalServiceUnavailable carrying the
      service's error message. */
  lemma FirstUnavailableBatch(origin: PointOfInterest, ds: seq<RTreeBase>, oracle: Oracle, haversine: Haversine, k: nat)
    requires Project(origin, ds).Ok?
    requires k < WindowCount(|ds|)
    requires GatherUpTo(origin, Project(origin, ds).value, k, oracle).Ok?
    requires var coords := Project(origin, ds).value;
             oracle(origin, coords[BatchLimit * k .. Min(|ds|, BatchLimit * k + BatchLimit)]).status != StatusOk
    ensures var coords := Project(origin, ds).value;
            GoogleDistance(origin, ds, oracle, haversine)
            == Err(ExternalServiceUnavailable(oracle(origin, coords[BatchLimit * k .. Min(|ds|, BatchLimit * k + BatchLimit)]).errorMessage))
  {
    var coords := Project(origin, ds).value;
    GatherNext(origin, coords, oracle, k);
    GatherErrPersists(origin, coords, oracle, k + 1, WindowCount(|ds|));
  }

  /** Candidate j is classified by element j % 25 of the response to the
      window holding it. */
  lemma OutcomeAlignment(origin: PointOfInterest, coords: seq<GeoPoint>, oracle: Oracle, j: nat)
    requires Outcomes(origin, coords, oracle).Ok? && j < |coords|
    ensures AnsweredAt(origin, coords, oracle, j, Outcomes(origin, coords, oracle).value[j])
  {
    GatherAt(origin, coords, oracle, WindowCount(|coords|), j);
  }

  /** The key set of the end step is the set of candidate ids, duplicates or not. */
  lemma CompleteKeys(origin: PointOfInterest, ds: seq<RTreeBase>, elems: seq<Element>, haversine: Haversine)
    requires |ds| == |elems|
    requires Complete(origin, Classify(ds, elems), haversine).Ok?
    ensures Complete(origin, Classify(ds, elems), haversine).value.Keys == Ids(ds)
  {
    var b := Classify(ds, elems);
    ClassifyKeys(ds, elems);
    ClassifyFallback(ds, elems);
    var unresolved := Ids(b.fallback);
    assert Ids(ds) == ResolvedIds(ds, elems) + unresolved by {
      forall id | id in Ids(ds)
        ensures id in ResolvedIds(ds, elems) + unresolved
      {
        var k :| 0 <= k < |ds| && ds[k].id == id;
        if elems[k].status != StatusOk {
          var t :| 0 <= t < |b.fallback| && b.fallback[t] == ds[k];
          assert b.fallback[t].id == id;
        }
      }
      forall id | id in unresolved
        ensures id in Ids(ds)
      {
        var t :| 0 <= t < |b.fallback| && b.fallback[t].id == id;
        assert b.fallback[t] in b.fallback;
        var k :| 0 <= k < |ds| && ds[k] == b.fallback[t] && elems[k].status != StatusOk;
      }
    }
    if b.fallback == [] {
      assert unresolved == {};
    }
  }

  /** The key set of the result is the set of candidate ids, duplicates or not. */
  lemma ResolvedKeys(origin: PointOfInterest, ds: seq<RTreeBase>, oracle: Oracle, haversine: Haversine)
    requires GoogleDistance(origin, ds, oracle, haversine).Ok?
    ensures GoogleDistance(origin, ds, oracle, haversine).value.Keys == Ids(ds)
  {
    ResolutionShape(origin, ds, oracle, haversine);
    CompleteKeys(origin, ds, Outcomes(origin, Project(origin, ds).value, oracle).value, haversine);
  }

  /** In the end step an "OK" element always wins: its id carries an EXACT
      distance, never an ESTIMATE. */
  lemma CompleteExact(origin: PointOfInterest, ds: seq<RTreeBase>, elems: seq<Element>, haversine: Haversine, k: nat)
    requires |ds| == |elems| && k < |ds| && elems[k].status == StatusOk
    requires Complete(origin, Classify(ds, elems), haversine).Ok?
    ensures ds[k].id in Complete(origin, Classify(ds, elems), haversine).value
    ensures Complete(origin, Classify(ds, elems), haversine).value[ds[k].id].kind == Exact
  {
    ClassifyKeys(ds, elems);
    assert ds[k].id in ResolvedIds(ds, elems);
  }

  /** An "OK" element always wins: the id of a destination the service
      answered carries an EXACT distance, never an ESTIMATE. */
  lemma ExactWins(origin: PointOfInterest, ds: seq<RTreeBase>, oracle: Oracle, haversine: Haversine, k: nat)
    requires Project(origin, ds).Ok?
    requires Outcomes(origin, Project(origin, ds).value, oracle).Ok?
    requires k < |ds| && Outcomes(origin, Project(origin, ds).value, oracle).value[k].status == StatusOk
    ensures GoogleDistance(origin, ds, oracle, haversine).Ok?
    ensures ds[k].id in GoogleDistance(origin, ds, oracle, haversine).value
    ensures GoogleDistance(origin, ds, oracle, haversine).value[ds[k].id].kind == Exact
  {
    ResolutionShape(origin, ds, oracle, haversine);
    CompleteExact(origin, ds, Outcomes(origin, Project(origin, ds).value, oracle).value, haversine, k);
  }

  /** With unique ids, the end step gives every candidate its own Distance:
      the element's value as EXACT when it is "OK", otherwise the estimate
      from its projected point as ESTIMATE. */
  lemma CompleteValue(origin: PointOfInterest, ds: seq<RTreeBase>, elems: seq<Element>, haversine: Haversine, k: nat)
    requires UniqueIds(ds) && |ds| == |elems| && k < |ds|
    requires Complete(origin, Classify(ds, elems), haversine).Ok?
    ensures elems[k].status != StatusOk ==> Supported(ds[k])
    ensures ds[k].id in Complete(origin, Classify(ds, elems), haversine).value
    ensures Complete(origin, Classify(ds, elems), haversine).value[ds[k].id]
            == if elems[k].status == StatusOk then Distance(elems[k].value, Exact)
               else Distance(haversine(origin, ClosestMBRPoint(origin, ds[k]).value), Estimate)
  {
    ClassifyKeys(ds, elems);
    if elems[k].status == StatusOk {
      assert LastOk(ds, elems, ds[k].id, k);
      ClassifyExactAt(ds, elems, k);
    } else {
      assert ds[k].id !in ResolvedIds(ds, elems);
      EstimateFromFallback(origin, ds, elems, haversine, k);
    }
  }

  /** With unique ids, every candidate gets exactly its own Distance: the
      service's value as EXACT when its element is "OK", otherwise the
      haversine estimate from its projected point as ESTIMATE. */
  lemma ResolvedValue(origin: PointOfInterest, ds: seq<RTreeBase>, oracle: Oracle, haversine: Haversine, k: nat)
    requires UniqueIds(ds)
    requires Project(origin, ds).Ok?
    requires Outcomes(origin, Project(origin, ds).value, oracle).Ok?
    requires k < |ds|
    ensures GoogleDistance(origin, ds, oracle, haversine).Ok?
    ensures ds[k].id in GoogleDistance(origin, ds, oracle, haversine).value
    ensures var coords := Project(origin, ds).value;
            var e := Outcomes(origin, coords, oracle).value[k];
            GoogleDistance(origin, ds, oracle, haversine).value[ds[k].id]
            == if e.status == StatusOk then Distance(e.value, Exact) else Distance(haversine(origin, coords[k]), Estimate)
  {
    ResolutionShape(origin, ds, oracle, haversine);
    CompleteValue(origin, ds, Outcomes(origin, Project(origin, ds).value, oracle).value, haversine, k);
  }

  /** With unique ids, a destination whose element is not "OK" has no EXACT
      entry, and its estimate is the one computed from its own projected point. */
  lemma EstimateFromFallback(origin: PointOfInterest, ds: seq<RTreeBase>, elems: seq<Element>, haversine: Haversine, k: nat)
    requires UniqueIds(ds) && |ds| == |elems| && k < |ds| && elems[k].status != StatusOk
    requires HaversineDistances(origin, Classify(ds, elems).fallback, haversine).Ok?
    ensures Supported(ds[k])
    ensures ds[k].id in HaversineDistances(origin, Classify(ds, elems).fallback, haversine).value
    ensures HaversineDistances(origin, Classify(ds, elems).fallback, haversine).value[ds[k].id]
            == Distance(haversine(origin, ClosestMBRPoint(origin, ds[k]).value), Estimate)
  {
    var fallback := Classify(ds, elems).fallback;
    ClassifyFallback(ds, elems);
    FallbackDistinct(ds, elems);
    var t :| 0 <= t < |fallback| && fallback[t] == ds[k];
    assert fallback[t].id in Ids(fallback);
    HaversineAt(origin, fallback, haversine, t);
  }

  /** With unique ids, no id appears twice in the fallback list. */
  lemma {:induction false} FallbackDistinct(ds: seq<RTreeBase>, elems: seq<Element>)
    requires UniqueIds(ds) && |ds| == |elems|
    ensures forall t, t' :: 0 <= t < t' < |Classify(ds, elems).fallback| ==>
              Classify(ds, elems).fallback[t].id != Classify(ds, elems).fallback[t'].id
    decreases |ds|
  {
    if ds != [] {
      var n := |ds| - 1;
      assert UniqueIds(ds[..n]);
      FallbackDistinct(ds[..n], elems[..n]);
      ClassifyFallback(ds[..n], elems[..n]);
      var prev := Classify(ds[..n], elems[..n]).fallback;
      forall t | 0 <= t < |prev|
        ensures prev[t].id != ds[n].id
      {
        assert prev[t] in prev;
        var k :| 0 <= k < n && ds[..n][k] == prev[t] && elems[..n][k].status != StatusOk;
        assert ds[k] == prev[t];
      }
    }
  }

  /** Every value calculateHaversineDistance produces is an ESTIMATE. */
  lemma {:induction false} HaversineAllEstimates(origin: PointOfInterest, ds: seq<RTreeBase>, haversine: Haversine)
    requires HaversineDistances(origin, ds, haversine).Ok?
    ensures forall id :: id in HaversineDistances(origin, ds, haversine).value ==>
              HaversineDistances(origin, ds, haversine).value[id].kind == Estimate
    decreases |ds|
  {
    if ds != [] {
      HaversineAllEstimates(origin, ds[..|ds| - 1], haversine);
    }
  }

  /** The fallback list is empty exactly when every element is "OK". */
  lemma {:induction false} NoFallbackIff(ds: seq<RTreeBase>, elems: seq<Element>)
    requires |ds| == |elems|
    ensures Classify(ds, elems).fallback == [] <==> forall k :: 0 <= k < |elems| ==> elems[k].status == StatusOk
    decreases |ds|
  {
    if ds != [] {
      var n := |ds| - 1;
      NoFallbackIff(ds[..n], elems[..n]);
      assert forall k :: 0 <= k < n ==> elems[..n][k] == elems[k];
    }
  }

  /** When every element is "OK" there is no fallback: the map is returned
      exactly as the batch loop left it, every value EXACT. */
  lemma AllAnsweredIsExact(origin: PointOfInterest, ds: seq<RTreeBase>, oracle: Oracle, haversine: Haversine)
    requires Project(origin, ds).Ok?
    requires Outcomes(origin, Project(origin, ds).value, oracle).Ok?
    requires var elems := Outcomes(origin, Project(origin, ds).value, oracle).value;
             forall k :: 0 <= k < |elems| ==> elems[k].status == StatusOk
    ensures var elems := Outcomes(origin, Project(origin, ds).value, oracle).value;
            GoogleDistance(origin, ds, oracle, haversine) == Ok(Classify(ds, elems).distances)
    ensures forall id :: id in GoogleDistance(origin, ds, oracle, haversine).value ==>
              GoogleDistance(origin, ds, oracle, haversine).value[id].kind == Exact
  {
    var elems := Outcomes(origin, Project(origin, ds).value, oracle).value;
    ResolutionShape(origin, ds, oracle, haversine);
    NoFallbackIff(ds, elems);
    ClassifyKeys(ds, elems);
  }

  /** The requests sent, one after the other, are exactly the projected
      destinations in order; each holds between 1 and 25 of them; there are
      ceil(n / 25) of them and none for an empty list. */
  lemma RequestsPartition(coords: seq<GeoPoint>)
    ensures |Requests(coords)| == WindowCount(|coords|)
    ensures Flatten(Requests(coords)) == coords
    ensures forall k :: 0 <= k < |Requests(coords)| ==> 0 < |Requests(coords)[k]| <= BatchLimit
    ensures coords == [] <==> Requests(coords) == []
  {
    var r := Requests(coords);
    RequestsPrefix(coords, |r|);
    assert r[..|r|] == r;
    WindowStart(|coords|, |r|);
  }

  /** Request k carries exactly the destinations of window k of the loop. */
  lemma RequestsFollowWindows(coords: seq<GeoPoint>)
    ensures |Requests(coords)| == |Windows(|coords|)|
    ensures forall k :: 0 <= k < |Requests(coords)| ==>
              Windows(|coords|)[k].0 <= Windows(|coords|)[k].1 <= |coords| &&
              Requests(coords)[k] == coords[Windows(|coords|)[k].0 .. Windows(|coords|)[k].1]
  {
    WindowsShape(|coords|);
  }
}
