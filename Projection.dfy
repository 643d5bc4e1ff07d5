/** Projection of the query origin onto one R-tree entry
    (getClosestDimension and getClosestMBRPoint). */
module Projection {
  import opened DistanceTypes

  function Abs(x: real): real { if x < 0.0 then -x else x }

  function MinReal(a: real, b: real): real { if a <= b then a else b }

  /** getClosestDimension: the coordinate of [lower, upper] nearest to poiDim. */
  function ClosestDimension(poiDim: real, lower: real, upper: real): (r: real)
    ensures lower <= upper ==> lower <= r <= upper
    ensures poiDim < lower ==> r == lower
    ensures lower <= poiDim <= upper ==> r == poiDim
    ensures lower <= poiDim && upper < poiDim ==> r == upper
  {
    if poiDim < lower then lower else MinReal(poiDim, upper)
  }

  /** No point of [lower, upper] is nearer to poiDim than the clamped one. */
  lemma ClosestDimensionIsNearest(poiDim: real, lower: real, upper: real, x: real)
    requires lower <= x <= upper
    ensures Abs(ClosestDimension(poiDim, lower, upper) - poiDim) <= Abs(x - poiDim)
  {
  }

  /** The rectangle is not inverted on either axis. */
  predicate WellFormed(mbr: Mbr)
  {
    mbr.southwest.latitude <= mbr.northeast.latitude && mbr.southwest.longitude <= mbr.northeast.longitude
  }

  predicate Contains(mbr: Mbr, p: GeoPoint)
  {
    mbr.southwest.latitude <= p.latitude <= mbr.northeast.latitude
    && mbr.southwest.longitude <= p.longitude <= mbr.northeast.longitude
  }

  function AsPoint(origin: PointOfInterest): GeoPoint { GeoPoint(origin.lat, origin.lng) }

  predicate Supported(d: RTreeBase) { d.RTreeNode? || d.RTreeLeaf? }

  /** getClosestMBRPoint: a leaf projects to its own point, a node to the
      point of its rectangle nearest the origin, anything else is refused. */
  function ClosestMBRPoint(origin: PointOfInterest, destination: RTreeBase): (r: Result<GeoPoint>)
    ensures r.Err? <==> !Supported(destination)
    ensures r.Err? ==> r.error == UnsupportedOperation
    ensures destination.RTreeLeaf? ==> r == Ok(destination.geopoint)
    ensures destination.RTreeNode? && WellFormed(destination.mbr) ==> Contains(destination.mbr, r.value)
    ensures destination.RTreeNode? && Contains(destination.mbr, AsPoint(origin)) ==> r == Ok(AsPoint(origin))
  {
    match destination
    case RTreeNode(_, mbr) =>
      Ok(GeoPoint(ClosestDimension(origin.lat, mbr.southwest.latitude, mbr.northeast.latitude),
                  ClosestDimension(origin.lng, mbr.southwest.longitude, mbr.northeast.longitude)))
    case RTreeLeaf(_, p) => Ok(p)
    case OtherEntry(_) => Err(UnsupportedOperation)
  }

  /** Squared planar distance between the origin and a point. */
  function SqDist(origin: PointOfInterest, p: GeoPoint): real
  {
    (p.latitude - origin.lat) * (p.latitude - origin.lat) + (p.longitude - origin.lng) * (p.longitude - origin.lng)
  }

  lemma SquareMonotonic(a: real, b: real)
    requires Abs(a) <= Abs(b)
    ensures a * a <= b * b
  {
    assert a * a == Abs(a) * Abs(a);
    assert b * b == Abs(b) * Abs(b);
    assert Abs(a) * Abs(a) <= Abs(a) * Abs(b);
    assert Abs(a) * Abs(b) <= Abs(b) * Abs(b);
  }

  /** Clamping the two axes independently yields the point of the rectangle
      nearest the origin under the planar metric. */
  lemma ClosestMBRPointIsNearest(origin: PointOfInterest, destination: RTreeBase, q: GeoPoint)
    requires destination.RTreeNode? && Contains(destination.mbr, q)
    ensures ClosestMBRPoint(origin, destination).Ok?
    ensures SqDist(origin, ClosestMBRPoint(origin, destination).value) <= SqDist(origin, q)
  {
    var mbr := destination.mbr;
    var p := ClosestMBRPoint(origin, destination).value;
    ClosestDimensionIsNearest(origin.lat, mbr.southwest.latitude, mbr.northeast.latitude, q.latitude);
    ClosestDimensionIsNearest(origin.lng, mbr.southwest.longitude, mbr.northeast.longitude, q.longitude);
    assert Abs(p.latitude - origin.lat) <= Abs(q.latitude - origin.lat);
    assert Abs(p.longitude - origin.lng) <= Abs(q.longitude - origin.lng);
    SquareMonotonic(p.latitude - origin.lat, q.latitude - origin.lat);
    SquareMonotonic(p.longitude - origin.lng, q.longitude - origin.lng);
  }
}
