/**
 * The data shaping around the HTTP handlers (src/filter.rs): the coordinate
 * list sent to the matrix service and the choice of reply payload. Postcode
 * lookup is a parameter that always yields a location, as the source
 * assumes; the narrowing of coordinates to `f32` is not represented.
 */
module Filter {
  import opened Wrappers
  import VrpFormat
  import OsrmService
  import Request

  /** A location as the `[lng, lat]` pair the matrix service takes. */
  function Pair(location: VrpFormat.Location): (p: seq<real>)
    ensures |p| == 2 && p[0] == location.lng && p[1] == location.lat
  {
    [location.lng, location.lat]
  }

  /** Every postcode looked up and turned into a pair, in order. */
  function Pairs(lookup: string -> VrpFormat.Location, postcodes: seq<string>): (r: seq<seq<real>>)
    ensures |r| == |postcodes|
    ensures forall i :: 0 <= i < |postcodes| ==> r[i] == Pair(lookup(postcodes[i]))
  {
    if |postcodes| == 0 then [] else Pairs(lookup, postcodes[..|postcodes| - 1]) + [Pair(lookup(postcodes[|postcodes| - 1]))]
  }

  /**
   * The list `build_matrix` hands to the matrix service: the jobs' pairs in
   * order, then the vehicles' pairs in order.
   */
  function MatrixCoordinates(trip: Request.SimpleTrip, lookup: string -> VrpFormat.Location): (r: seq<seq<real>>)
    ensures |r| == |trip.coordinateJobs| + |trip.coordinateVehicles|
    ensures forall i :: 0 <= i < |trip.coordinateJobs| ==> r[i] == Pair(lookup(trip.coordinateJobs[i]))
    ensures forall i :: 0 <= i < |trip.coordinateVehicles| ==>
              r[|trip.coordinateJobs| + i] == Pair(lookup(trip.coordinateVehicles[i]))
    ensures forall i :: 0 <= i < |r| ==> |r[i]| == 2
  {
    Pairs(lookup, trip.coordinateJobs) + Pairs(lookup, trip.coordinateVehicles)
  }

  /**
   * `build_matrix`: the matrix for those coordinates; the source unwraps the
   * result, so the matrix service must succeed on them.
   */
  function BuildMatrix(trip: Request.SimpleTrip, lookup: string -> VrpFormat.Location, osrmNew: Result<OsrmService.Osrm>): (m: VrpFormat.Matrix)
    requires osrmNew.Ok? ==> |trip.coordinateJobs| + |trip.coordinateVehicles| > 0
    requires OsrmService.GetMatrix(osrmNew, MatrixCoordinates(trip, lookup)).Ok?
    ensures var trips := OsrmService.TripSpec(osrmNew, MatrixCoordinates(trip, lookup)).value;
      m.profile == Some("car") &&
      m.travelTimes == OsrmService.TruncRow(trips.0[0]) && m.distances == OsrmService.TruncRow(trips.1[0])
  {
    OsrmService.GetMatrix(osrmNew, MatrixCoordinates(trip, lookup)).value
  }

  /** What a successful reply carries. */
  datatype Payload<T, R> = Outer(outerValue: T) | Real(realValue: R)

  /**
   * `match_option_to_warp`: a rejection (`None`) exactly when `outer` is
   * missing; otherwise `realValue` when present, else `outer`'s value.
   */
  function MatchOptionToWarp<T, R>(outer: Option<T>, realValue: Option<R>): (r: Option<Payload<T, R>>)
    ensures r.Some? <==> outer.Some?
    ensures r.Some? && realValue.Some? ==> r.value == Real(realValue.value)
    ensures r.Some? && realValue.None? ==> r.value == Outer(outer.value)
  {
    match (realValue, outer)
    case (Some(value), Some(_)) => Some(Real(value))
    case (None, Some(value)) => Some(Outer(value))
    case (_, None) => None
  }
}
