/**
 * Travel-time and distance matrices from an OSRM routing engine
 * (src/osrm_service.rs). The engine is abstract: `Osrm::new` is an
 * `Option`-free `Result` handed in by the caller, and a table query is a
 * function from (sources, destinations) to a reply whose cells may be missing.
 */
module OsrmService {
  import opened Wrappers
  import VrpFormat

  /** `osrm::Coordinate`. */
  datatype Coordinate = Coordinate(longitude: real, latitude: real)

  /**
   * A one-source table reply: `durations[j]` and `distances[j]` are what
   * `get_duration(0, j)` and `get_distance(0, j)` give; a missing cell, or an
   * index past the end, is a failed lookup.
   */
  datatype TableResponse = TableResponse(durations: seq<Option<real>>, distances: seq<Option<real>>)

  /** An opened engine: `table(sources, destinations)`. */
  datatype Osrm = Osrm(table: (seq<Coordinate>, seq<Coordinate>) -> Result<TableResponse>)

  /** Which pass a row belongs to. */
  datatype Kind = Durations | Distances

  /** The lookup `get_duration(0, j)` / `get_distance(0, j)`. */
  function Cell(cells: seq<Option<real>>, j: nat): (r: Option<real>)
    ensures r.Some? <==> j < |cells| && cells[j].Some?
    ensures r.Some? ==> r == cells[j]
  {
    if j < |cells| then cells[j] else None
  }

  /** The values of the cells from `from` up to the first failed lookup. */
  function LeadingRun(cells: seq<Option<real>>, from: nat): (r: seq<real>)
    ensures from + |r| <= |cells| || (from > |cells| && r == [])
    ensures forall k :: 0 <= k < |r| ==> cells[from + k] == Some(r[k])
    ensures Cell(cells, from + |r|).None?
    decreases |cells| - from
  {
    if from < |cells| && cells[from].Some? then [cells[from].value] + LeadingRun(cells, from + 1) else []
  }

  /**
   * The run is the only sequence with those two properties: every listed
   * index succeeds and the index after them fails.
   */
  lemma {:induction false} LeadingRunUnique(cells: seq<Option<real>>, from: nat, vals: seq<real>)
    requires forall k :: 0 <= k < |vals| ==> Cell(cells, from + k) == Some(vals[k])
    requires Cell(cells, from + |vals|).None?
    ensures vals == LeadingRun(cells, from)
    decreases |vals|
  {
    if |vals| > 0 {
      assert Cell(cells, from) == Some(vals[0]);
      forall k | 0 <= k < |vals[1..]|
        ensures Cell(cells, from + 1 + k) == Some(vals[1..][k])
      {
        assert Cell(cells, from + (k + 1)) == Some(vals[k + 1]);
      }
      LeadingRunUnique(cells, from + 1, vals[1..]);
      assert vals == [vals[0]] + vals[1..];
    }
  }

  /** What `build_source_duration` returns for a table reply. */
  function SourceDurations(reply: Result<TableResponse>): Result<seq<real>>
  {
    match reply
    case Err(e) => Err(e)
    case Ok(t) => Ok(LeadingRun(t.durations, 0))
  }

  /**
   * What `build_source_distance` returns for a table reply: when index 0's
   * distance is found, element 0 is the DURATION at (0, 0) (an error if that
   * lookup fails), followed by the distances from index 1 on.
   */
  function SourceDistances(reply: Result<TableResponse>): Result<seq<real>>
  {
    match reply
    case Err(e) => Err(e)
    case Ok(t) =>
      if Cell(t.distances, 0).None? then Ok([])
      else if Cell(t.durations, 0).None? then Err("duration lookup failed")
      else Ok([Cell(t.durations, 0).value] + LeadingRun(t.distances, 1))
  }

  /** The durations row: values for indices 0..k-1, where k is the first failed lookup. */
  lemma SourceDurationsRun(t: TableResponse)
    ensures SourceDurations(Ok(t)).Ok?
    ensures var row := SourceDurations(Ok(t)).value;
      (forall k :: 0 <= k < |row| ==> Cell(t.durations, k) == Some(row[k])) &&
      Cell(t.durations, |row|).None?
  {
  }

  /** The distances row starts with the duration at (0, 0) and then lists distances only. */
  lemma SourceDistancesShape(t: TableResponse)
    requires Cell(t.distances, 0).Some? && Cell(t.durations, 0).Some?
    ensures SourceDistances(Ok(t)).Ok?
    ensures var row := SourceDistances(Ok(t)).value;
      |row| >= 1 && Some(row[0]) == Cell(t.durations, 0) &&
      (forall k :: 1 <= k < |row| ==> Cell(t.distances, k) == Some(row[k])) &&
      Cell(t.distances, |row|).None?
  {
    var run := LeadingRun(t.distances, 1);
    var row := [Cell(t.durations, 0).value] + run;
    forall k | 1 <= k < |row|
      ensures Cell(t.distances, k) == Some(row[k])
    {
      assert row[k] == run[k - 1];
      assert t.distances[1 + (k - 1)] == Some(run[k - 1]);
    }
  }

  /** The row a pass builds for one reply. */
  function SourceRow(kind: Kind, reply: Result<TableResponse>): Result<seq<real>>
  {
    match kind
    case Durations => SourceDurations(reply)
    case Distances => SourceDistances(reply)
  }

  /** The table query `build_source_*` issues for source `index`: that one coordinate against all. */
  function SourceReply(osrm: Osrm, index: nat, destinations: seq<Coordinate>): Result<TableResponse>
    requires index < |destinations|
  {
    osrm.table([destinations[index]], destinations)
  }

  /**
   * `build_source_duration`: probe `get_duration(0, count)` for count = 0, 1, …
   * and keep every value until the first failure.
   */
  method BuildSourceDuration(osrm: Osrm, sourceIndex: nat, destinations: seq<Coordinate>) returns (r: Result<seq<real>>)
    requires sourceIndex < |destinations|
    ensures r == SourceDurations(SourceReply(osrm, sourceIndex, destinations))
  {
    var reply := osrm.table([destinations[sourceIndex]], destinations);
    assert reply == SourceReply(osrm, sourceIndex, destinations);
    if reply.Err? {
      return Err(reply.error);
    }
    var cells := reply.value.durations;
    var count: nat := 0;
    var durations: seq<real> := [];
    while true
      invariant count <= |cells|
      invariant durations + LeadingRun(cells, count) == LeadingRun(cells, 0)
      decreases |cells| - count
    {
      var result := Cell(cells, count);
      if result.Some? && count > 0 {
        durations := durations + [result.value];
        count := count + 1;
      } else if result.Some? && count == 0 {
        var duration := Cell(cells, 0);
        durations := durations + [duration.value];
        count := count + 1;
      } else {
        assert LeadingRun(cells, count) == [];
        break;
      }
    }
    assert durations == LeadingRun(cells, 0);
    r := Ok(durations);
  }

  /**
   * `build_source_distance`: the same probing over `get_distance`, except
   * that index 0, once its distance is found, stores `get_duration(0, 0)`.
   */
  method BuildSourceDistance(osrm: Osrm, sourceIndex: nat, destinations: seq<Coordinate>) returns (r: Result<seq<real>>)
    requires sourceIndex < |destinations|
    ensures r == SourceDistances(SourceReply(osrm, sourceIndex, destinations))
  {
    var reply := osrm.table([destinations[sourceIndex]], destinations);
    assert reply == SourceReply(osrm, sourceIndex, destinations);
    if reply.Err? {
      return Err(reply.error);
    }
    var table := reply.value;
    var cells := table.distances;
    var count: nat := 0;
    var distances: seq<real> := [];
    while true
      invariant count <= |cells|
      invariant count == 0 ==> distances == []
      invariant count > 0 ==> Cell(table.durations, 0).Some? && Cell(cells, 0).Some? &&
                              distances + LeadingRun(cells, count) == [Cell(table.durations, 0).value] + LeadingRun(cells, 1)
      decreases |cells| - count
    {
      var result := Cell(cells, count);
      if result.Some? && count > 0 {
        distances := distances + [result.value];
        count := count + 1;
      } else if result.Some? && count == 0 {
        var duration := Cell(table.durations, 0);
        if duration.None? {
          return Err("duration lookup failed");
        }
        distances := distances + [duration.value];
        count := count + 1;
      } else {
        assert count > 0 ==> LeadingRun(cells, count) == [];
        break;
      }
    }
    assert count == 0 ==> Cell(cells, 0).None?;
    assert count > 0 ==> distances == [Cell(table.durations, 0).value] + LeadingRun(cells, 1);
    r := Ok(distances);
  }

  /** `coord[0]` is the longitude and `coord[1]` the latitude. */
  function ToCoordinate(coord: seq<real>): (c: Coordinate)
    requires |coord| >= 2
    ensures c.longitude == coord[0] && c.latitude == coord[1]
  {
    Coordinate(coord[0], coord[1])
  }

  /** Every input pair turned into a coordinate, in order. */
  function Destinations(coords: seq<seq<real>>): (d: seq<Coordinate>)
    requires forall i :: 0 <= i < |coords| ==> |coords[i]| >= 2
    ensures |d| == |coords|
    ensures forall i :: 0 <= i < |coords| ==> d[i] == ToCoordinate(coords[i])
  {
    if |coords| == 0 then [] else Destinations(coords[..|coords| - 1]) + [ToCoordinate(coords[|coords| - 1])]
  }

  /**
   * What `generic_trip` returns: one row per destination, row i for source i,
   * or the first failing row's error.
   */
  function Rows(osrm: Osrm, destinations: seq<Coordinate>, kind: Kind, n: nat): (r: Result<seq<seq<real>>>)
    requires n <= |destinations|
    ensures r.Ok? ==> |r.value| == n
    ensures r.Ok? ==> forall i :: 0 <= i < n ==> SourceRow(kind, SourceReply(osrm, i, destinations)) == Ok(r.value[i])
    ensures r.Ok? <==> forall i :: 0 <= i < n ==> SourceRow(kind, SourceReply(osrm, i, destinations)).Ok?
    ensures r.Err? ==>
      exists i :: 0 <= i < n && SourceRow(kind, SourceReply(osrm, i, destinations)) == Err(r.error) &&
        forall j :: 0 <= j < i ==> SourceRow(kind, SourceReply(osrm, j, destinations)).Ok?
  {
    if n == 0 then Ok([])
    else
      match Rows(osrm, destinations, kind, n - 1)
      case Err(e) => Err(e)
      case Ok(prefix) =>
        match SourceRow(kind, SourceReply(osrm, n - 1, destinations))
        case Err(e) => Err(e)
        case Ok(row) => Ok(prefix + [row])
  }

  /** Once the rows up to source k succeed and source k fails, every longer run fails with k's error. */
  lemma {:induction false} RowsFirstError(osrm: Osrm, destinations: seq<Coordinate>, kind: Kind, k: nat, n: nat)
    requires k < n <= |destinations|
    requires Rows(osrm, destinations, kind, k).Ok?
    requires SourceRow(kind, SourceReply(osrm, k, destinations)).Err?
    ensures Rows(osrm, destinations, kind, n) == Err(SourceRow(kind, SourceReply(osrm, k, destinations)).error)
    decreases n
  {
    if n > k + 1 {
      RowsFirstError(osrm, destinations, kind, k, n - 1);
    }
  }

  /** The `action` closure `trip` passes to `generic_trip` for each pass. */
  method BuildSourceRow(osrm: Osrm, kind: Kind, index: nat, destinations: seq<Coordinate>) returns (r: Result<seq<real>>)
    requires index < |destinations|
    ensures r == SourceRow(kind, SourceReply(osrm, index, destinations))
  {
    if kind == Durations {
      r := BuildSourceDuration(osrm, index, destinations);
    } else {
      r := BuildSourceDistance(osrm, index, destinations);
    }
  }

  /** What `generic_trip` returns for an engine that may fail to open. */
  function GenericTripSpec(osrm: Result<Osrm>, coords: seq<seq<real>>, kind: Kind): Result<seq<seq<real>>>
    requires forall i :: 0 <= i < |coords| ==> |coords[i]| >= 2
  {
    match osrm
    case Err(e) => Err(e)
    case Ok(o) => Rows(o, Destinations(coords), kind, |coords|)
  }

  /**
   * `generic_trip`: open the engine, turn the pairs into coordinates and push
   * one row per source index in order, stopping at the first error.
   */
  method GenericTrip(osrmNew: Result<Osrm>, coords: seq<seq<real>>, kind: Kind) returns (r: Result<seq<seq<real>>>)
    requires forall i :: 0 <= i < |coords| ==> |coords[i]| >= 2
    ensures r == GenericTripSpec(osrmNew, coords, kind)
  {
    if osrmNew.Err? {
      return Err(osrmNew.error);
    }
    var osrm := osrmNew.value;
    var destinations := Destinations(coords);
    var matrix: seq<seq<real>> := [];
    for index := 0 to |destinations|
      invariant Rows(osrm, destinations, kind, index) == Ok(matrix)
    {
      var row := BuildSourceRow(osrm, kind, index, destinations);
      if row.Err? {
        RowsFirstError(osrm, destinations, kind, index, |destinations|);
        return Err(row.error);
      }
      matrix := matrix + [row.value];
    }
    r := Ok(matrix);
  }

  /** What `trip` returns: both passes, durations first; either failure is the result. */
  function TripSpec(osrmNew: Result<Osrm>, coords: seq<seq<real>>): (r: Result<(seq<seq<real>>, seq<seq<real>>)>)
    requires forall i :: 0 <= i < |coords| ==> |coords[i]| >= 2
    ensures r.Ok? <==> GenericTripSpec(osrmNew, coords, Durations).Ok? && GenericTripSpec(osrmNew, coords, Distances).Ok?
    ensures r.Ok? ==> r.value.0 == GenericTripSpec(osrmNew, coords, Durations).value &&
                      r.value.1 == GenericTripSpec(osrmNew, coords, Distances).value
  {
    match GenericTripSpec(osrmNew, coords, Durations)
    case Err(e) => Err(e)
    case Ok(durations) =>
      match GenericTripSpec(osrmNew, coords, Distances)
      case Err(e) => Err(e)
      case Ok(distances) => Ok((durations, distances))
  }

  /** `trip`: the durations pass, then the distances pass. */
  method Trip(osrmNew: Result<Osrm>, coords: seq<seq<real>>) returns (r: Result<(seq<seq<real>>, seq<seq<real>>)>)
    requires forall i :: 0 <= i < |coords| ==> |coords[i]| >= 2
    ensures r == TripSpec(osrmNew, coords)
  {
    var durations := GenericTrip(osrmNew, coords, Durations);
    if durations.Err? {
      return Err(durations.error);
    }
    var distances := GenericTrip(osrmNew, coords, Distances);
    if distances.Err? {
      return Err(distances.error);
    }
    r := Ok((durations.value, distances.value));
  }

  /** `val as i64` on a finite value: truncation toward zero. */
  function Trunc(x: real): (r: int)
    ensures x >= 0.0 ==> r as real <= x < r as real + 1.0
    ensures x < 0.0 ==> r as real - 1.0 < x <= r as real
  {
    if x >= 0.0 then x.Floor else -((-x).Floor)
  }

  /** Every value of a row truncated, in order. */
  function TruncRow(row: seq<real>): (r: seq<int>)
    ensures |r| == |row|
    ensures forall i :: 0 <= i < |row| ==> r[i] == Trunc(row[i])
  {
    if |row| == 0 then [] else TruncRow(row[..|row| - 1]) + [Trunc(row[|row| - 1])]
  }

  /**
   * `get_matrix`: the `car` matrix built from row 0 of each pass only, with
   * neither timestamp nor error codes.
   */
  function GetMatrix(osrmNew: Result<Osrm>, coords: seq<seq<real>>): (r: Result<VrpFormat.Matrix>)
    requires forall i :: 0 <= i < |coords| ==> |coords[i]| >= 2
    requires osrmNew.Ok? ==> |coords| > 0
    ensures r.Ok? <==> TripSpec(osrmNew, coords).Ok?
    ensures r.Ok? ==>
      var trip := TripSpec(osrmNew, coords).value;
      |trip.0| == |trip.1| == |coords| &&
      r.value.profile == Some("car") && r.value.timestamp.None? && r.value.errorCodes.None? &&
      r.value.travelTimes == TruncRow(trip.0[0]) && r.value.distances == TruncRow(trip.1[0])
  {
    match TripSpec(osrmNew, coords)
    case Err(e) => Err(e)
    case Ok(trip) =>
      Ok(VrpFormat.Matrix(Some("car"), None, TruncRow(trip.0[0]), TruncRow(trip.1[0]), None))
  }
}
