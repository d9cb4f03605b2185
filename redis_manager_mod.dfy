/**
 * The newer Redis adapter (src/redis_manager/mod.rs): the geo bulk loader
 * `bulk_set_csv` with its sentinel filter, the shaping of a `GEOPOS` reply,
 * the `HSCAN` match pattern of `get_postcode`, and the path default of the
 * `JSON.SET`/`JSON.GET` commands. Redis replies are parameters.
 */
module RedisManagerMod {
  import opened Wrappers
  import opened Text
  import opened Dataset
  import RowBuilder

  /** The placeholder latitude and longitude the dataset uses for "no coordinate on file". */
  const SentinelLat := "99.999999"
  const SentinelLon := "0.000000"

  /** The member name every `GEOADD` uses. */
  const Region := "UK"

  /** One queued `GEOADD key lon lat member`. */
  datatype GeoCommand = GeoAdd(key: string, lon: string, lat: string, member: string)

  /** A record is loaded only when its latitude is not the sentinel latitude AND its longitude is not the sentinel longitude. */
  predicate Loaded(row: Record)
    requires |row| >= 3
  {
    var (lon, lat) := RowBuilder.RowTuple(1, 2, row);
    lat != SentinelLat && lon != SentinelLon
  }

  /** The command queued for a loaded record: its space-free postcode at (lon, lat) under `UK`. */
  function GeoRowCommand(row: Record): (c: GeoCommand)
    requires |row| >= 3
    ensures c.lon == row[2] && c.lat == row[1] && c.member == Region
    ensures c.key == RowBuilder.RowField(0, row)
  {
    var (lon, lat) := RowBuilder.RowTuple(1, 2, row);
    GeoAdd(RowBuilder.RowField(0, row), lon, lat, Region)
  }

  /** The pipeline `bulk_set_csv` builds from `rows`. */
  function GeoPipeline(rows: seq<Record>): (p: seq<GeoCommand>)
    requires WellFormed(rows)
    ensures |p| <= |rows|
    ensures forall i :: 0 <= i < |p| ==> p[i].lat != SentinelLat && p[i].lon != SentinelLon && p[i].member == Region
  {
    if |rows| == 0 then []
    else
      var last := rows[|rows| - 1];
      GeoPipeline(rows[..|rows| - 1]) + (if Loaded(last) then [GeoRowCommand(last)] else [])
  }

  /** Loading is record by record: the pipeline of two parts is the two pipelines in order. */
  lemma {:induction false} GeoPipelineConcat(a: seq<Record>, b: seq<Record>)
    requires WellFormed(a) && WellFormed(b)
    ensures WellFormed(a + b)
    ensures GeoPipeline(a + b) == GeoPipeline(a) + GeoPipeline(b)
  {
    if |b| > 0 {
      var ab := a + b;
      assert ab[..|ab| - 1] == a + b[..|b| - 1];
      assert ab[|ab| - 1] == b[|b| - 1];
      GeoPipelineConcat(a, b[..|b| - 1]);
    } else {
      assert a + b == a;
    }
  }

  /** A single record contributes its command exactly when it is loaded. */
  lemma GeoPipelineSingle(row: Record)
    requires |row| >= 3
    ensures GeoPipeline([row]) == if Loaded(row) then [GeoRowCommand(row)] else []
  {
    assert [row][..0] == [];
  }

  /** Either sentinel component alone is enough to skip a record. */
  lemma SentinelComponentSkips(postcode: string, lat: string, lon: string)
    requires lat == SentinelLat || lon == SentinelLon
    ensures GeoPipeline([[postcode, lat, lon]]) == []
  {
    GeoPipelineSingle([postcode, lat, lon]);
  }

  /**
   * `bulk_set_csv`: counts every record read, queues a `GEOADD` for each loaded
   * one, runs the pipeline, and answers `Some(())` exactly when that succeeds.
   */
  method BulkSetCsv(rows: seq<Record>, pipelineSucceeds: bool)
    returns (count: nat, pipeline: seq<GeoCommand>, result: Option<()>)
    requires WellFormed(rows)
    ensures count == |rows|
    ensures pipeline == GeoPipeline(rows)
    ensures result.Some? <==> pipelineSucceeds
  {
    count := 0;
    pipeline := [];
    for i := 0 to |rows|
      invariant count == i
      invariant pipeline == GeoPipeline(rows[..i])
    {
      assert rows[..i + 1][..i] == rows[..i];
      count := count + 1;
      var (lon, lat) := RowBuilder.RowTuple(1, 2, rows[i]);
      if lat != SentinelLat && lon != SentinelLon {
        pipeline := pipeline + [GeoAdd(RowBuilder.RowField(0, rows[i]), lon, lat, Region)];
      }
    }
    assert rows[..|rows|] == rows;
    result := if pipelineSucceeds then Some(()) else None;
  }

  /**
   * `get_geo_pos`: the reply of `GEOPOS key UK` is a list with one entry per
   * member; an empty list or an empty first entry is an error, otherwise the
   * first entry is (longitude, latitude).
   */
  function GetGeoPos(key: string, reply: Result<seq<seq<real>>>): (r: Result<(real, real)>)
    requires reply.Ok? && |reply.value| > 0 && |reply.value[0]| > 0 ==> |reply.value[0]| >= 2
    ensures r.Ok? <==> reply.Ok? && |reply.value| > 0 && |reply.value[0]| > 0
    ensures r.Ok? ==> r.value.0 == reply.value[0][0] && r.value.1 == reply.value[0][1]
    ensures reply.Err? ==> r == Err(reply.error)
    ensures reply.Ok? && |reply.value| > 0 && |reply.value[0]| == 0 ==> r == Err("Returned empty coordinates for " + key)
    ensures reply.Ok? && |reply.value| == 0 ==> r == Err("Could not get coordinates from []")
  {
    match reply
    case Err(e) => Err(e)
    case Ok(coordList) =>
      if |coordList| == 0 then Err("Could not get coordinates from []")
      else if |coordList[0]| == 0 then Err("Returned empty coordinates for " + key)
      else Ok((coordList[0][0], coordList[0][1]))
  }

  /** `get_postcode`'s match pattern: the coordinate texts joined by `;`, in input order. */
  function PostcodePattern(coordinates: seq<string>): (r: string)
    ensures |coordinates| >= 1 && (forall i :: 0 <= i < |coordinates| ==> ';' !in coordinates[i]) ==>
              Split(r, ';') == coordinates
  {
    PatternSplits(coordinates);
    Join(coordinates, ';')
  }

  /** Joining `;`-free coordinates with `;` can be undone by splitting. */
  lemma PatternSplits(coordinates: seq<string>)
    ensures |coordinates| >= 1 && (forall i :: 0 <= i < |coordinates| ==> ';' !in coordinates[i]) ==>
              Split(Join(coordinates, ';'), ';') == coordinates
  {
    if |coordinates| >= 1 && (forall i :: 0 <= i < |coordinates| ==> ';' !in coordinates[i]) {
      SplitJoin(coordinates, ';');
    }
  }

  /** The pattern for a (latitude, longitude) pair is `"{lat};{lon}"`. */
  lemma PostcodePatternPair(lat: string, lon: string)
    ensures PostcodePattern([lat, lon]) == lat + ";" + lon
  {
    assert [lat, lon][1..] == [lon];
    assert Join([lat, lon], ';') == lat + [';'] + Join([lon], ';');
    assert PostcodePattern([lat, lon]) == Join([lat, lon], ';');
  }

  /** The JSON path a command uses: the given one, or the root `"."` when none is given. */
  function JsonPath(path: Option<string>): (p: string)
    ensures path.Some? ==> p == path.value
    ensures path.None? ==> p == "."
  {
    match path
    case Some(given) => given
    case None => "."
  }

  /** `set_json`'s command: `JSON.SET`, the key, the given path or the root `"."`, then the JSON text. */
  function SetJsonCommand(key: string, path: Option<string>, json: string): (cmd: seq<string>)
    ensures |cmd| == 4 && cmd[0] == "JSON.SET" && cmd[1] == key && cmd[3] == json
    ensures path.None? ==> cmd[2] == "."
    ensures path.Some? ==> cmd[2] == path.value
  {
    ["JSON.SET", key, JsonPath(path), json]
  }

  /** `get_json`'s command: `JSON.GET`, the key, then the given path or the root `"."`. */
  function GetJsonCommand(key: string, path: Option<string>): (cmd: seq<string>)
    ensures |cmd| == 3 && cmd[0] == "JSON.GET" && cmd[1] == key
    ensures path.None? ==> cmd[2] == "."
    ensures path.Some? ==> cmd[2] == path.value
  {
    ["JSON.GET", key, JsonPath(path)]
  }

  /** Omitting the path is the same as asking for the root path `"."`. */
  lemma JsonPathDefault(key: string, json: string)
    ensures SetJsonCommand(key, None, json) == SetJsonCommand(key, Some("."), json)
    ensures GetJsonCommand(key, None) == GetJsonCommand(key, Some("."))
  {
  }

  /** `set_json`'s result: `None` if serialising or the write fails, otherwise a report of the write. */
  function SetJsonResult(key: string, value: string, json: Option<string>, reply: Result<string>): (r: Option<string>)
    ensures r.Some? <==> json.Some? && reply.Ok?
    ensures r.Some? ==> r.value == "Wrote " + value + " with key " + key + " and result " + reply.value
  {
    if json.None? then None
    else match reply
      case Err(_) => None
      case Ok(res) => Some("Wrote " + value + " with key " + key + " and result " + res)
  }
}
