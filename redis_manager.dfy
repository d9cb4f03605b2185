/**
 * The older Redis adapter (src/redis_manager.rs): the bulk loader that fills
 * the hash `POSTCODE` with `"{lat};{lon}"` values, and the result shaping of
 * `get` and `set`. The Redis server is abstract: a pipeline is a sequence of
 * queued commands, and running it on a hash is `ApplyPipeline`.
 */
module RedisManager {
  import opened Wrappers
  import opened Text
  import opened Dataset
  import RowBuilder

  const PostcodeTable := "POSTCODE"

  /** One queued `HSET table field value`. */
  datatype Command = HSet(table: string, field: string, value: string)

  /** The command queued for one dataset record (postcode 0, latitude 1, longitude 2). */
  function RowCommand(row: Record): (c: Command)
    requires |row| >= 3
    ensures c.table == PostcodeTable
    ensures c.field == RowBuilder.RowField(0, row)
    ensures ';' !in row[1] && ';' !in row[2] ==> Split(c.value, ';') == [row[1], row[2]]
  {
    HSet(PostcodeTable, RowBuilder.RowField(0, row), RowBuilder.RowValue(1, 2, row))
  }

  /** The pipeline `bulk_set` builds: one command per record, in record order, nothing filtered. */
  function HSetPipeline(rows: seq<Record>): (p: seq<Command>)
    requires WellFormed(rows)
    ensures |p| == |rows|
    ensures forall i :: 0 <= i < |rows| ==> p[i] == RowCommand(rows[i])
  {
    if |rows| == 0 then []
    else HSetPipeline(rows[..|rows| - 1]) + [RowCommand(rows[|rows| - 1])]
  }

  /** `bulk_set`: reads every record, counting it and queueing its `HSET`. */
  method BulkSet(rows: seq<Record>) returns (count: nat, pipeline: seq<Command>)
    requires WellFormed(rows)
    ensures count == |rows|
    ensures pipeline == HSetPipeline(rows)
  {
    count := 0;
    pipeline := [];
    for i := 0 to |rows|
      invariant count == i
      invariant pipeline == HSetPipeline(rows[..i])
    {
      assert rows[..i + 1][..i] == rows[..i];
      count := count + 1;
      pipeline := pipeline + [RowCommand(rows[i])];
    }
    assert rows[..|rows|] == rows;
  }

  /** The hash after the server runs the pipeline's `HSET`s in order. */
  function ApplyPipeline(hash: map<string, string>, cmds: seq<Command>): map<string, string>
  {
    if |cmds| == 0 then hash
    else
      var last := cmds[|cmds| - 1];
      ApplyPipeline(hash, cmds[..|cmds| - 1])[last.field := last.value]
  }

  /** Command `i` writes `field` and no later command does. */
  predicate IsLastWrite(cmds: seq<Command>, field: string, i: nat)
    requires i < |cmds|
  {
    cmds[i].field == field && forall j :: i < j < |cmds| ==> cmds[j].field != field
  }

  /** The value of the last command in `cmds` that writes `field`, if any. */
  function LastWrite(cmds: seq<Command>, field: string): (r: Option<string>)
    ensures r.None? <==> forall i :: 0 <= i < |cmds| ==> cmds[i].field != field
    ensures r.Some? ==> exists i: nat :: i < |cmds| && IsLastWrite(cmds, field, i) && cmds[i].value == r.value
  {
    if |cmds| == 0 then None
    else if cmds[|cmds| - 1].field == field then
      assert IsLastWrite(cmds, field, |cmds| - 1);
      Some(cmds[|cmds| - 1].value)
    else
      var prefix := cmds[..|cmds| - 1];
      assert forall i :: 0 <= i < |prefix| ==> prefix[i] == cmds[i];
      assert forall i: nat :: i < |prefix| && IsLastWrite(prefix, field, i) ==> IsLastWrite(cmds, field, i);
      LastWrite(prefix, field)
  }

  /**
   * Running a pipeline on a hash: a field written by the pipeline holds the
   * value of its last write; any other field is exactly as before.
   */
  lemma {:induction false} ApplyPipelineAt(hash: map<string, string>, cmds: seq<Command>, field: string)
    ensures LastWrite(cmds, field).Some? ==>
              field in ApplyPipeline(hash, cmds) && ApplyPipeline(hash, cmds)[field] == LastWrite(cmds, field).value
    ensures LastWrite(cmds, field).None? ==>
              (field in ApplyPipeline(hash, cmds) <==> field in hash) &&
              (field in hash ==> ApplyPipeline(hash, cmds)[field] == hash[field])
  {
    if |cmds| > 0 {
      ApplyPipelineAt(hash, cmds[..|cmds| - 1], field);
    }
  }

  /** `get`: `None` when the lookup fails or the stored text does not deserialise. */
  function Get<T>(reply: Option<string>, deserialise: string -> Option<T>): (r: Option<T>)
    ensures reply.None? ==> r.None?
    ensures reply.Some? ==> r == deserialise(reply.value)
  {
    match reply
    case None => None
    case Some(text) => deserialise(text)
  }

  /** `set`: a report naming value, table, key and Redis's reply on success, `None` on failure. */
  function Set(table: string, key: string, value: string, reply: Result<nat>): (r: Option<string>)
    ensures r.Some? <==> reply.Ok?
    ensures reply.Ok? ==>
              r.value == "Wrote " + value + " to table: " + table + " with key " + key + " and result " + NatToString(reply.value)
  {
    match reply
    case Err(_) => None
    case Ok(res) =>
      Some("Wrote " + value + " to table: " + table + " with key " + key + " and result " + NatToString(res))
  }
}
