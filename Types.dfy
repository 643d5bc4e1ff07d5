/** Value types shared by the distance-resolution model: coordinates, R-tree
    entries, the Distance record, the distance-matrix response and the errors
    the service throws. */
module DistanceTypes {

  /** The exceptions DistanceService lets escape, as values. */
  datatype Error =
    | UnsupportedOperation                       // getClosestMBRPoint on an entry that is neither node nor leaf
    | ExternalServiceUnavailable(message: string) // a batch whose overall status is not "OK"
    | IndexOutOfBounds                           // rows.get(0) or getElements().get(j % 25) past the end

  datatype Result<+T> = Ok(value: T) | Err(error: Error)

  /** Coordinates are compared only, so they are modelled as reals. */
  datatype GeoPoint = GeoPoint(latitude: real, longitude: real)

  /** The query origin. */
  datatype PointOfInterest = PointOfInterest(lat: real, lng: real)

  /** Minimum bounding rectangle of an R-tree node. */
  datatype Mbr = Mbr(southwest: GeoPoint, northeast: GeoPoint)

  /** An entry of the R-tree: an inner node with its rectangle, a leaf with its
      point, or some other subclass the service does not know. */
  datatype RTreeBase =
    | RTreeNode(id: string, mbr: Mbr)
    | RTreeLeaf(id: string, geopoint: GeoPoint)
    | OtherEntry(id: string)

  datatype DistanceKind = Exact | Estimate

  /** Distance(value, "EXACT") or Distance(value, "ESTIMATE"). */
  datatype Distance = Distance(value: int, kind: DistanceKind)

  /** One element of the distance-matrix response: its status and the
      distance value (meters) it carries. */
  datatype Element = Element(status: string, value: int)

  datatype Row = Row(elements: seq<Element>)

  datatype DistanceMatrixResult = DistanceMatrixResult(status: string, errorMessage: string, rows: seq<Row>)

  /** The external distance-matrix call: origin and destinations to a response. */
  type Oracle = (PointOfInterest, seq<GeoPoint>) -> DistanceMatrixResult

  /** The great-circle estimate, truncated to whole meters; its trigonometry is left abstract. */
  type Haversine = (PointOfInterest, GeoPoint) -> nat

  const StatusOk: string := "OK"

  /** The ids of a list of entries. */
  function Ids(ds: seq<RTreeBase>): set<string>
  {
    set k | 0 <= k < |ds| :: ds[k].id
  }

  /** No two entries share an id. */
  predicate UniqueIds(ds: seq<RTreeBase>)
  {
    forall k, k' :: 0 <= k < k' < |ds| ==> ds[k].id != ds[k'].id
  }
}
