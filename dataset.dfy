/**
 * The postcode dataset as the core reads it: the records of `postcodes.csv`
 * after its header row, each a sequence of fields (postcode, latitude,
 * longitude). Every search in the core is `records.find(|r| r.iter().any(|f| f == target))`.
 */
module Dataset {
  import opened Wrappers

  type Record = seq<string>

  /** The dataset's shape: every record has the three columns of the header. */
  predicate WellFormed(rows: seq<Record>)
  {
    forall i :: 0 <= i < |rows| ==> |rows[i]| >= 3
  }

  /** Index of the first record, at or after `from`, with some field equal to `target`. */
  function FirstMatchFrom(rows: seq<Record>, target: string, from: nat): (r: Option<nat>)
    requires from <= |rows|
    ensures r.Some? ==> from <= r.value < |rows| && target in rows[r.value]
    ensures r.Some? ==> forall j :: from <= j < r.value ==> target !in rows[j]
    ensures r.None? ==> forall j :: from <= j < |rows| ==> target !in rows[j]
    decreases |rows| - from
  {
    if from == |rows| then None
    else if target in rows[from] then Some(from)
    else FirstMatchFrom(rows, target, from + 1)
  }

  /** The record `find` stops at: the earliest one holding `target` in any column. */
  function FirstMatch(rows: seq<Record>, target: string): (r: Option<nat>)
    ensures r.Some? <==> exists i :: 0 <= i < |rows| && target in rows[i]
    ensures r.Some? ==> r.value < |rows| && target in rows[r.value]
    ensures r.Some? ==> forall j :: 0 <= j < r.value ==> target !in rows[j]
  {
    FirstMatchFrom(rows, target, 0)
  }

  /** The matched record, if any, has at least `n` fields (what an `unwrap` of field `n - 1` needs). */
  predicate MatchHasFields(rows: seq<Record>, target: string, n: nat)
  {
    var m := FirstMatch(rows, target);
    m.Some? ==> |rows[m.value]| >= n
  }
}
