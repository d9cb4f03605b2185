/** Row helpers of the Redis bulk loader (src/redis_manager/builder.rs). */
module RowBuilder {
  import opened Text

  /** `"{lat};{lon}"`: the value stored for a postcode; it splits back into its two columns. */
  function RowValue(latIndex: nat, lonIndex: nat, row: seq<string>): (r: string)
    requires latIndex < |row| && lonIndex < |row|
    ensures |r| == |row[latIndex]| + 1 + |row[lonIndex]|
    ensures r[..|row[latIndex]|] == row[latIndex] && r[|row[latIndex]|] == ';'
    ensures r[|row[latIndex]| + 1..] == row[lonIndex]
    ensures ';' !in row[latIndex] && ';' !in row[lonIndex] ==> Split(r, ';') == [row[latIndex], row[lonIndex]]
  {
    SplitPair(row[latIndex], row[lonIndex], ';');
    row[latIndex] + ";" + row[lonIndex]
  }

  /** The (lon, lat) pair of a row: longitude first, although latitude's index is passed first. */
  function RowTuple(latIndex: nat, lonIndex: nat, row: seq<string>): (r: (string, string))
    requires latIndex < |row| && lonIndex < |row|
    ensures r.0 == row[lonIndex] && r.1 == row[latIndex]
  {
    (row[lonIndex], row[latIndex])
  }

  /** The key of a row: its postcode column with every space deleted and nothing else changed. */
  function RowField(postcodeIndex: nat, row: seq<string>): (r: string)
    requires postcodeIndex < |row|
    ensures ' ' !in r
    ensures multiset(r) == multiset(row[postcodeIndex])[' ' := 0]
    ensures ' ' !in row[postcodeIndex] ==> r == row[postcodeIndex]
    ensures r == RemoveChar(row[postcodeIndex], ' ')
  {
    RemoveCharAbsent(row[postcodeIndex], ' ');
    RemoveCharContents(row[postcodeIndex], ' ');
    RemoveChar(row[postcodeIndex], ' ')
  }

  /**
   * Deleting spaces keeps the order of the other characters: a postcode
   * column `a b` (outward and inward code, neither holding a space) has the
   * key `a` followed by `b`.
   */
  lemma RowFieldJoinsParts(postcodeIndex: nat, row: seq<string>, a: string, b: string)
    requires postcodeIndex < |row| && row[postcodeIndex] == a + " " + b
    requires ' ' !in a && ' ' !in b
    ensures RowField(postcodeIndex, row) == a + b
  {
    assert a + " " + b == a + ([' '] + b);
    RemoveCharConcat(a, [' '] + b, ' ');
    RemoveCharConcat([' '], b, ' ');
    RemoveCharAbsent(a, ' ');
    RemoveCharAbsent(b, ' ');
  }
}
