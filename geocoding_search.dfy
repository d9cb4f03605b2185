/**
 * The older first-match lookup over the dataset (src/geocoding/mod.rs): the
 * latitude and longitude text of the first record holding the query in any
 * column. A missing match panics in the source; here it is a precondition.
 */
module GeocodingSearch {
  import opened Wrappers
  import opened Dataset

  /** `search`: fields 1 and 2 of the earliest record with some field equal to `query`. */
  function Search(rows: seq<Record>, query: string): (r: (string, string))
    requires FirstMatch(rows, query).Some?
    requires MatchHasFields(rows, query, 3)
    ensures exists i :: 0 <= i < |rows| && query in rows[i] && |rows[i]| >= 3 &&
              r == (rows[i][1], rows[i][2]) &&
              forall j :: 0 <= j < i ==> query !in rows[j]
  {
    var i := FirstMatch(rows, query).value;
    (rows[i][1], rows[i][2])
  }

  /** Any column can match: a query equal to a record's latitude text finds that record. */
  lemma SearchMatchesAnyColumn(rows: seq<Record>, i: nat, column: nat)
    requires WellFormed(rows)
    requires i < |rows| && column < |rows[i]|
    requires forall j :: 0 <= j < i ==> rows[i][column] !in rows[j]
    ensures FirstMatch(rows, rows[i][column]) == Some(i)
    ensures Search(rows, rows[i][column]) == (rows[i][1], rows[i][2])
  {
    assert rows[i][column] in rows[i];
    var m := FirstMatch(rows, rows[i][column]);
    assert m.Some?;
  }

  /** When several records match, the earliest wins, whatever the later ones hold. */
  lemma SearchEarliestWins(rows: seq<Record>, more: seq<Record>, query: string)
    requires FirstMatch(rows, query).Some? && MatchHasFields(rows, query, 3)
    ensures FirstMatch(rows + more, query) == FirstMatch(rows, query)
    ensures MatchHasFields(rows + more, query, 3)
    ensures Search(rows + more, query) == Search(rows, query)
  {
    var i := FirstMatch(rows, query).value;
    var m := FirstMatch(rows + more, query);
    assert (rows + more)[i] == rows[i];
    assert m.Some?;
  }
}
