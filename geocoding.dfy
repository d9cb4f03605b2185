/**
 * Postcode <-> coordinate resolution (src/geocoding.rs): the cache-key
 * normaliser, the sentinel filter, the memoised bootstrap decision and the
 * resolvers that read either the Redis store or the dataset file.
 *
 * Coordinates found in the dataset or in the `POSTCODE` hash stay text
 * (`"{lat};{lon}"`); the geo store answers numbers.
 */
module Geocoding {
  import opened Wrappers
  import opened Text
  import opened Dataset
  import opened VrpFormat
  import RowBuilder
  import RedisManager
  import RedisManagerMod

  const PostcodeTableName := RedisManager.PostcodeTable
  const CoordinatesSeparator := ';'

  /** The dataset's placeholder for "no coordinate on file", as a stored value. */
  const Sentinel := "99.999999;0.000000"

  /** The record count of the dataset, fixed in the source rather than read from the file. */
  const PostcodeCsvSize := 2628568

  // ---------------------------------------------------------------------------
  // Key normaliser

  /** The characters a cache key never contains. */
  predicate IsKeySeparator(c: char)
  {
    c == ' ' || c == '-' || c == ',' || c == CoordinatesSeparator
  }

  /** `build_cache_key`: deletes spaces, then hyphens, then commas, then `;`. */
  function BuildCacheKey(query: string): (r: string)
    ensures forall i :: 0 <= i < |r| ==> !IsKeySeparator(r[i])
    ensures |r| <= |query|
  {
    var noSpace := RemoveChar(query, ' ');
    var noHyphen := RemoveChar(noSpace, '-');
    var noComma := RemoveChar(noHyphen, ',');
    RemoveCharContents(noSpace, '-');
    RemoveCharContents(noHyphen, ',');
    RemoveCharContents(noComma, ';');
    assert ' ' !in noHyphen by { assert multiset(noHyphen)[' '] == multiset(noSpace)[' '] == 0; }
    assert ' ' !in noComma && '-' !in noComma by {
      assert multiset(noComma)[' '] == multiset(noHyphen)[' '] == 0;
      assert multiset(noComma)['-'] == multiset(noHyphen)['-'] == 0;
    }
    var r := RemoveChar(noComma, ';');
    assert multiset(r)[' '] == 0 && multiset(r)['-'] == 0 && multiset(r)[','] == multiset(noComma)[','] == 0;
    r
  }

  /** Every character other than the four separators is kept, each as often as in the query. */
  lemma BuildCacheKeyContents(query: string)
    ensures multiset(BuildCacheKey(query)) == multiset(query)[' ' := 0]['-' := 0][',' := 0][';' := 0]
  {
    var noSpace := RemoveChar(query, ' ');
    var noHyphen := RemoveChar(noSpace, '-');
    var noComma := RemoveChar(noHyphen, ',');
    RemoveCharContents(query, ' ');
    RemoveCharContents(noSpace, '-');
    RemoveCharContents(noHyphen, ',');
    RemoveCharContents(noComma, ';');
  }

  /** Normalising works character by character: it distributes over concatenation. */
  lemma BuildCacheKeyConcat(a: string, b: string)
    ensures BuildCacheKey(a + b) == BuildCacheKey(a) + BuildCacheKey(b)
  {
    RemoveCharConcat(a, b, ' ');
    var a1, b1 := RemoveChar(a, ' '), RemoveChar(b, ' ');
    RemoveCharConcat(a1, b1, '-');
    var a2, b2 := RemoveChar(a1, '-'), RemoveChar(b1, '-');
    RemoveCharConcat(a2, b2, ',');
    var a3, b3 := RemoveChar(a2, ','), RemoveChar(b2, ',');
    RemoveCharConcat(a3, b3, ';');
  }

  /** A text without separators is already a key. */
  lemma BuildCacheKeyUnchanged(s: string)
    requires forall i :: 0 <= i < |s| ==> !IsKeySeparator(s[i])
    ensures BuildCacheKey(s) == s
  {
    RemoveCharAbsent(s, ' ');
    RemoveCharAbsent(s, '-');
    RemoveCharAbsent(s, ',');
    RemoveCharAbsent(s, ';');
  }

  /** Normalising a key again changes nothing. */
  lemma BuildCacheKeyIdempotent(query: string)
    ensures BuildCacheKey(BuildCacheKey(query)) == BuildCacheKey(query)
  {
    BuildCacheKeyUnchanged(BuildCacheKey(query));
  }

  /** A text made only of separators normalises to the empty key. */
  lemma {:induction false} BuildCacheKeyAllSeparators(m: string)
    requires forall i :: 0 <= i < |m| ==> IsKeySeparator(m[i])
    ensures BuildCacheKey(m) == ""
  {
    if |m| > 0 {
      assert m == [m[0]] + m[1..];
      BuildCacheKeyConcat([m[0]], m[1..]);
      BuildCacheKeyAllSeparators(m[1..]);
    }
  }

  /** Separators between two separator-free parts vanish and the parts are joined. */
  lemma BuildCacheKeyAround(a: string, m: string, b: string)
    requires forall i :: 0 <= i < |a| ==> !IsKeySeparator(a[i])
    requires forall i :: 0 <= i < |m| ==> IsKeySeparator(m[i])
    requires forall i :: 0 <= i < |b| ==> !IsKeySeparator(b[i])
    ensures BuildCacheKey(a + m + b) == a + b
  {
    BuildCacheKeyConcat(a + m, b);
    BuildCacheKeyConcat(a, m);
    BuildCacheKeyUnchanged(a);
    BuildCacheKeyUnchanged(b);
    BuildCacheKeyAllSeparators(m);
  }

  /** The example key is a word, four separators, and a word. */
  lemma ExampleKeyParts(query: string)
    requires query == "IMAGINARY; -,POSTCODE"
    ensures |query| == 21
    ensures forall i :: 0 <= i < 9 ==> !IsKeySeparator(query[i])
    ensures forall i :: 9 <= i < 13 ==> IsKeySeparator(query[i])
    ensures forall i :: 13 <= i < 21 ==> !IsKeySeparator(query[i])
    ensures query[..9] + query[13..] == "IMAGINARYPOSTCODE"
  {
  }

  /** The source's own example: `"IMAGINARY; -,POSTCODE"` becomes `"IMAGINARYPOSTCODE"`. */
  lemma BuildCacheKeyExample(query: string)
    requires query == "IMAGINARY; -,POSTCODE"
    ensures BuildCacheKey(query) == "IMAGINARYPOSTCODE"
  {
    ExampleKeyParts(query);
    var a, m, b := query[..9], query[9..13], query[13..];
    assert query == a + m + b;
    BuildCacheKeyAround(a, m, b);
  }

  /** The three usual spellings of one postcode share a key. */
  lemma BuildCacheKeyCollapsesFormats(spaced: string, hyphened: string, plain: string)
    requires spaced == "AB1 0AJ" && hyphened == "AB1-0AJ" && plain == "AB10AJ"
    ensures BuildCacheKey(spaced) == BuildCacheKey(hyphened) == BuildCacheKey(plain) == plain
  {
    var a, b := "AB1", "0AJ";
    assert spaced == a + " " + b && hyphened == a + "-" + b && plain == a + b;
    BuildCacheKeyAround(a, " ", b);
    BuildCacheKeyAround(a, "-", b);
    BuildCacheKeyUnchanged(plain);
  }

  /**
   * The key the bulk loader writes for a record is the key a lookup of that
   * record's postcode uses, whenever the postcode holds no hyphen, comma or `;`.
   */
  lemma RowFieldIsCacheKey(row: Record)
    requires |row| >= 1
    requires '-' !in row[0] && ',' !in row[0] && ';' !in row[0]
    ensures RowBuilder.RowField(0, row) == BuildCacheKey(row[0])
  {
    var noSpace := RemoveChar(row[0], ' ');
    RemoveCharContents(row[0], ' ');
    assert '-' !in noSpace && ',' !in noSpace && ';' !in noSpace by {
      assert multiset(noSpace)['-'] == multiset(row[0])['-'] == 0;
      assert multiset(noSpace)[','] == multiset(row[0])[','] == 0;
      assert multiset(noSpace)[';'] == multiset(row[0])[';'] == 0;
    }
    RemoveCharAbsent(noSpace, '-');
    RemoveCharAbsent(noSpace, ',');
    RemoveCharAbsent(noSpace, ';');
  }

  // ---------------------------------------------------------------------------
  // Sentinel filter

  /**
   * `check_coordinate_string`: the dataset's placeholder is refused with a
   * message naming the query; any other text passes unchanged.
   */
  function CheckCoordinateString(query: string, coordinates: string): (r: Result<string>)
    ensures r.Err? <==> coordinates == Sentinel
    ensures r.Ok? ==> r.value == coordinates
    ensures r.Err? ==> r.error == "Location is invalid for: \"" + query + "\""
  {
    if coordinates == Sentinel then Err("Location is invalid for: \"" + query + "\"")
    else Ok(coordinates)
  }

  /** The tail of `reverse_search`: a lookup error is passed on, a found text is filtered. */
  function FilterFound(query: string, found: Result<string>): (r: Result<string>)
    ensures r.Ok? ==> r.value != Sentinel && found == r
    ensures found.Err? ==> r == found
    ensures found.Ok? && found.value != Sentinel ==> r == found
    ensures found.Ok? && found.value == Sentinel ==> r.Err?
  {
    match found
    case Err(e) => Err(e)
    case Ok(coordinates) => CheckCoordinateString(query, coordinates)
  }

  // ---------------------------------------------------------------------------
  // Store path

  /**
   * `reverse_search_cache_table`: `HGET POSTCODE postcode`; a missing field is
   * an error naming the postcode and the table.
   */
  function ReverseSearchCacheTable(postcodes: map<string, string>, postcode: string): (r: Result<string>)
    ensures r.Ok? <==> postcode in postcodes
    ensures r.Ok? ==> r.value == postcodes[postcode]
    ensures r.Err? ==> r.error == "Failed to get `" + postcode + "` from `" + PostcodeTableName + "`"
  {
    if postcode in postcodes then Ok(postcodes[postcode])
    else Err("Failed to get `" + postcode + "` from `" + PostcodeTableName + "`")
  }

  /**
   * `forward_search_cache_table`: the `HSCAN` reply for the `;`-joined
   * coordinates, or a fixed message when the scan fails.
   */
  function ForwardSearchCacheTable(latLon: seq<string>, hscan: string -> Result<string>): (r: string)
    ensures hscan(RedisManagerMod.PostcodePattern(latLon)).Ok? ==> r == hscan(RedisManagerMod.PostcodePattern(latLon)).value
    ensures hscan(RedisManagerMod.PostcodePattern(latLon)).Err? ==> r == "Postcode couldn't be found"
  {
    match hscan(RedisManagerMod.PostcodePattern(latLon))
    case Err(_) => "Postcode couldn't be found"
    case Ok(value) => value
  }

  /**
   * The `GEOPOS key UK` reply from the geo store: one position, empty when
   * the key holds no `UK` member.
   */
  function GeoPosReply(geo: map<string, (real, real)>, key: string): (reply: Result<seq<seq<real>>>)
    ensures reply.Ok? && |reply.value| == 1
    ensures key in geo ==> reply.value[0] == [geo[key].0, geo[key].1]
    ensures key !in geo ==> reply.value[0] == []
  {
    if key in geo then Ok([[geo[key].0, geo[key].1]]) else Ok([[]])
  }

  /** `map_to_location`: longitude and latitude into a location, in that order. */
  function MapToLocation(lng: real, lat: real): (l: Location)
    ensures l.lng == lng && l.lat == lat
  {
    Location(lng, lat)
  }

  /**
   * `get_location_from_postcode`: the geo branch is the one taken; the query
   * is normalised and the stored (lon, lat) of its key becomes the location.
   */
  function GetLocationFromPostcode(geo: map<string, (real, real)>, query: string): (r: Result<Location>)
    ensures r.Ok? <==> BuildCacheKey(query) in geo
    ensures r.Ok? ==> r.value == Location(geo[BuildCacheKey(query)].0, geo[BuildCacheKey(query)].1)
    ensures r.Err? ==> r.error == "Returned empty coordinates for " + BuildCacheKey(query)
  {
    var key := BuildCacheKey(query);
    var reply := GeoPosReply(geo, key);
    match RedisManagerMod.GetGeoPos(key, reply)
    case Err(e) => Err(e)
    case Ok(pos) => Ok(MapToLocation(pos.0, pos.1))
  }

  /** Spellings that differ only in separators resolve alike. */
  lemma GetLocationFromPostcodeSpellings(geo: map<string, (real, real)>, a: string, m: string, b: string)
    requires forall i :: 0 <= i < |a| ==> !IsKeySeparator(a[i])
    requires forall i :: 0 <= i < |m| ==> IsKeySeparator(m[i])
    requires forall i :: 0 <= i < |b| ==> !IsKeySeparator(b[i])
    ensures GetLocationFromPostcode(geo, a + m + b) == GetLocationFromPostcode(geo, a + b)
  {
    BuildCacheKeyAround(a, m, b);
    BuildCacheKeyConcat(a, b);
    BuildCacheKeyUnchanged(a);
    BuildCacheKeyUnchanged(b);
  }

  /** The message of Rust's float parse error for a piece that does not parse. */
  function ParseFloatError(piece: string): string
  {
    if piece == "" then "cannot parse float from empty string" else "invalid float literal"
  }

  /**
   * `get_location_from_table` on the text `reverse_search` gave: the two
   * `;`-separated pieces parsed as numbers, in the order they are stored.
   * The pieces are parsed left to right and the first failure returns, so
   * piece 1 is only indexed (and must exist) once piece 0 has parsed.
   */
  function GetLocationFromTable(coordinates: Result<string>, parse: string -> Option<real>): (r: Result<(real, real)>)
    requires coordinates.Ok? && parse(Split(coordinates.value, ';')[0]).Some? ==> |Split(coordinates.value, ';')| >= 2
    ensures coordinates.Err? ==> r == Err(coordinates.error)
    ensures coordinates.Ok? && parse(Split(coordinates.value, ';')[0]).None? ==>
              r == Err(ParseFloatError(Split(coordinates.value, ';')[0]))
    ensures coordinates.Ok? && parse(Split(coordinates.value, ';')[0]).Some? &&
            parse(Split(coordinates.value, ';')[1]).None? ==>
              r == Err(ParseFloatError(Split(coordinates.value, ';')[1]))
    ensures r.Ok? <==> coordinates.Ok? && parse(Split(coordinates.value, ';')[0]).Some? &&
                       parse(Split(coordinates.value, ';')[1]).Some?
    ensures r.Ok? ==> Some(r.value.0) == parse(Split(coordinates.value, ';')[0]) &&
                      Some(r.value.1) == parse(Split(coordinates.value, ';')[1])
  {
    match coordinates
    case Err(e) => Err(e)
    case Ok(text) =>
      var pieces := Split(text, ';');
      match parse(pieces[0])
      case None => Err(ParseFloatError(pieces[0]))
      case Some(lat) =>
        match parse(pieces[1])
        case None => Err(ParseFloatError(pieces[1]))
        case Some(lon) => Ok((lat, lon))
  }

  /** A one-piece text whose piece does not parse is the parse error, not a panic. */
  lemma GetLocationFromTableOnePiece(text: string, parse: string -> Option<real>)
    requires ';' !in text && parse(text).None?
    ensures Split(text, ';') == [text]
    ensures GetLocationFromTable(Ok(text), parse) == Err(ParseFloatError(text))
  {
    SplitNoSeparator(text, ';');
  }

  /**
   * The table path read on a stored `"{lat};{lon}"` gives (lat, lon); since
   * its caller binds the pair as `(lng, lat)`, that path would swap the axes.
   */
  lemma GetLocationFromTableLatitudeFirst(lat: string, lon: string, parse: string -> Option<real>)
    requires ';' !in lat && ';' !in lon
    requires parse(lat).Some? && parse(lon).Some?
    ensures Split(lat + ";" + lon, ';') == [lat, lon]
    ensures GetLocationFromTable(Ok(lat + ";" + lon), parse) == Ok((parse(lat).value, parse(lon).value))
  {
    SplitPair(lat, lon, ';');
  }

  // ---------------------------------------------------------------------------
  // File path

  /** The text `reverse_search_file` compares fields with: spaces removed, then hyphens made spaces. */
  function FileQuery(query: string): (r: string)
    ensures '-' !in r
    ensures ' ' !in query ==> r == ReplaceChar(query, '-', ' ')
    ensures ' ' !in query && '-' !in query ==> r == query
  {
    RemoveCharAbsent(query, ' ');
    ReplaceCharAbsent(query, '-', ' ');
    ReplaceChar(RemoveChar(query, ' '), '-', ' ')
  }

  /**
   * `reverse_search_file`: the latitude and longitude, as `"{lat};{lon}"`, of the
   * first record with a field equal to `FileQuery(query)`; an error if none.
   */
  function ReverseSearchFile(rows: seq<Record>, query: string): (r: Result<string>)
    requires MatchHasFields(rows, FileQuery(query), 3)
    ensures r.Ok? <==> exists i :: 0 <= i < |rows| && FileQuery(query) in rows[i]
    ensures r.Ok? ==> exists i :: 0 <= i < |rows| && FileQuery(query) in rows[i] && |rows[i]| >= 3 &&
                        r.value == rows[i][1] + ";" + rows[i][2] &&
                        forall j :: 0 <= j < i ==> FileQuery(query) !in rows[j]
    ensures r.Err? ==> r.error == "Unable to find coordinates for " + query
  {
    match FirstMatch(rows, FileQuery(query))
    case None => Err("Unable to find coordinates for " + query)
    case Some(i) => Ok(rows[i][1] + ";" + rows[i][2])
  }

  /**
   * `forward_search_file`: the postcode column of the first record with a
   * field equal to the first coordinate's text; the second coordinate is not looked at.
   */
  function ForwardSearchFile(rows: seq<Record>, latLon: seq<string>): (r: string)
    requires |latLon| > 0 && FirstMatch(rows, latLon[0]).Some?
    ensures exists i :: 0 <= i < |rows| && latLon[0] in rows[i] && r == rows[i][0] &&
              forall j :: 0 <= j < i ==> latLon[0] !in rows[j]
  {
    var i := FirstMatch(rows, latLon[0]).value;
    rows[i][0]
  }

  /** Only the first coordinate takes part: two queries that share it get the same postcode. */
  lemma ForwardSearchFileIgnoresRest(rows: seq<Record>, latLon: seq<string>, other: seq<string>)
    requires |latLon| > 0 && FirstMatch(rows, latLon[0]).Some?
    requires |other| > 0 && other[0] == latLon[0]
    ensures ForwardSearchFile(rows, other) == ForwardSearchFile(rows, latLon)
  {
  }

  /** A hyphenated postcode is compared in its spaced form. */
  lemma FileQueryHyphen(a: string, b: string)
    requires ' ' !in a && '-' !in a && ' ' !in b && '-' !in b
    ensures FileQuery(a + "-" + b) == a + " " + b
  {
    assert a + "-" + b == a + ['-'] + b;
    assert a + " " + b == a + [' '] + b;
    assert ' ' !in a + ['-'] + b;
    ReplaceCharAround(a, b, '-', ' ');
  }

  /** The source's reverse example on a one-record dataset: `AB1-0AJ` finds the record of `AB1 0AJ`. */
  lemma ReverseSearchFileExample(rows: seq<Record>, query: string, lat: string, lon: string)
    requires lat == "57.099011" && lon == "-2.252854" && rows == [["AB1 0AJ", lat, lon]]
    requires query == "AB1-0AJ"
    ensures ReverseSearchFile(rows, query) == Ok(lat + ";" + lon)
  {
    var a, b := "AB1", "0AJ";
    assert query == a + "-" + b;
    FileQueryHyphen(a, b);
    assert FileQuery(query) == rows[0][0];
    assert FirstMatch(rows, FileQuery(query)) == Some(0);
  }

  /** The source's forward example: the first coordinate alone finds `AB1 0AJ`. */
  lemma ForwardSearchFileExample(rows: seq<Record>, latLon: seq<string>)
    requires rows == [["AB1 0AJ", "57.099011", "-2.252854"]]
    requires latLon == ["57.099011", "-2.252854"]
    ensures FirstMatch(rows, latLon[0]).Some?
    ensures ForwardSearchFile(rows, latLon) == "AB1 0AJ"
  {
    assert latLon[0] in rows[0];
  }

  /**
   * A query with a space is compared in a shorter form, so it never matches a
   * dataset whose every field is at least as long as the query.
   */
  lemma SpacedQueryMisses(rows: seq<Record>, query: string)
    requires ' ' in query
    requires forall i, j :: 0 <= i < |rows| && 0 <= j < |rows[i]| ==> |rows[i][j]| >= |query|
    ensures MatchHasFields(rows, FileQuery(query), 3)
    ensures ReverseSearchFile(rows, query).Err?
  {
    var q := FileQuery(query);
    assert |q| < |query|;
    forall i | 0 <= i < |rows|
      ensures q !in rows[i]
    {
      forall j | 0 <= j < |rows[i]|
        ensures rows[i][j] != q
      {
        assert |rows[i][j]| >= |query|;
      }
    }
  }

  /** The same postcode spelt with its space is not found: the space is removed and nothing puts it back. */
  lemma FileSearchMissesSpacedQuery(rows: seq<Record>, query: string)
    requires rows == [["AB1 0AJ", "57.099011", "-2.252854"]]
    requires query == "AB1 0AJ"
    ensures ReverseSearchFile(rows, query).Err?
  {
    assert query[3] == ' ';
    assert forall j :: 0 <= j < |rows[0]| ==> |rows[0][j]| >= 7;
    SpacedQueryMisses(rows, query);
  }

  // ---------------------------------------------------------------------------
  // Bootstrap and the resolvers

  /** The `POSTCODE` hash after `bulk_set` has run its pipeline on it. */
  function LoadedPostcodes(postcodes: map<string, string>, rows: seq<Record>): map<string, string>
    requires WellFormed(rows)
  {
    RedisManager.ApplyPipeline(postcodes, RedisManager.HSetPipeline(rows))
  }

  /** The `POSTCODE` hash after `bootstrap_cache(table)` from a state with this memo and hash. */
  function AfterBootstrap(memo: map<string, bool>, postcodes: map<string, string>, rows: seq<Record>, table: string): map<string, string>
    requires WellFormed(rows)
  {
    if table == PostcodeTableName && table !in memo && |postcodes| < PostcodeCsvSize
    then LoadedPostcodes(postcodes, rows)
    else postcodes
  }

  /** Command i of the load writes the key and the value of record i. */
  lemma LoadCommandAt(rows: seq<Record>, i: nat)
    requires WellFormed(rows) && i < |rows|
    ensures RedisManager.HSetPipeline(rows)[i].field == RowBuilder.RowField(0, rows[i])
    ensures RedisManager.HSetPipeline(rows)[i].value == rows[i][1] + ";" + rows[i][2]
  {
  }

  /** A key some record has is written by the load. */
  lemma LoadWritesKey(rows: seq<Record>, key: string, k: nat)
    requires WellFormed(rows) && k < |rows| && RowBuilder.RowField(0, rows[k]) == key
    ensures RedisManager.LastWrite(RedisManager.HSetPipeline(rows), key).Some?
  {
    LoadCommandAt(rows, k);
    assert RedisManager.HSetPipeline(rows)[k].field == key;
  }

  /** The load's last write to a key is the `"{lat};{lon}"` of the last record with that key. */
  lemma LoadLastWrite(rows: seq<Record>, key: string)
    requires WellFormed(rows)
    requires RedisManager.LastWrite(RedisManager.HSetPipeline(rows), key).Some?
    ensures exists i :: 0 <= i < |rows| && RowBuilder.RowField(0, rows[i]) == key &&
              RedisManager.LastWrite(RedisManager.HSetPipeline(rows), key).value == rows[i][1] + ";" + rows[i][2] &&
              forall j :: i < j < |rows| ==> RowBuilder.RowField(0, rows[j]) != key
  {
    var p := RedisManager.HSetPipeline(rows);
    var i: nat :| i < |p| && RedisManager.IsLastWrite(p, key, i) && p[i].value == RedisManager.LastWrite(p, key).value;
    LoadCommandAt(rows, i);
    LoadLaterRecords(rows, key, i);
  }

  /** No record after the one the last write came from has its key. */
  lemma LoadLaterRecords(rows: seq<Record>, key: string, i: nat)
    requires WellFormed(rows) && i < |rows|
    requires RedisManager.IsLastWrite(RedisManager.HSetPipeline(rows), key, i)
    ensures forall j :: i < j < |rows| ==> RowBuilder.RowField(0, rows[j]) != key
  {
    forall j | i < j < |rows|
      ensures RowBuilder.RowField(0, rows[j]) != key
    {
      LoadCommandAt(rows, j);
    }
  }

  /** The load's last write to a dataset postcode's key is the `"{lat};{lon}"` of the last record with that key. */
  lemma LoadLastRecord(rows: seq<Record>, key: string)
    requires WellFormed(rows)
    requires exists i :: 0 <= i < |rows| && RowBuilder.RowField(0, rows[i]) == key
    ensures RedisManager.LastWrite(RedisManager.HSetPipeline(rows), key).Some?
    ensures exists i :: 0 <= i < |rows| && RowBuilder.RowField(0, rows[i]) == key &&
              RedisManager.LastWrite(RedisManager.HSetPipeline(rows), key).value == rows[i][1] + ";" + rows[i][2] &&
              forall j :: i < j < |rows| ==> RowBuilder.RowField(0, rows[j]) != key
  {
    var k :| 0 <= k < |rows| && RowBuilder.RowField(0, rows[k]) == key;
    LoadWritesKey(rows, key, k);
    LoadLastWrite(rows, key);
  }

  /** After a load, the key of a dataset postcode holds the `"{lat};{lon}"` of the last record with that key. */
  lemma LoadedPostcodesAt(postcodes: map<string, string>, rows: seq<Record>, key: string)
    requires WellFormed(rows)
    requires exists i :: 0 <= i < |rows| && RowBuilder.RowField(0, rows[i]) == key
    ensures key in LoadedPostcodes(postcodes, rows)
    ensures exists i :: 0 <= i < |rows| && RowBuilder.RowField(0, rows[i]) == key &&
              LoadedPostcodes(postcodes, rows)[key] == rows[i][1] + ";" + rows[i][2] &&
              forall j :: i < j < |rows| ==> RowBuilder.RowField(0, rows[j]) != key
  {
    RedisManager.ApplyPipelineAt(postcodes, RedisManager.HSetPipeline(rows), key);
    LoadLastRecord(rows, key);
  }

  /** A load leaves a key that no dataset record has exactly as it was. */
  lemma LoadedPostcodesUntouched(postcodes: map<string, string>, rows: seq<Record>, key: string)
    requires WellFormed(rows)
    requires forall i :: 0 <= i < |rows| ==> RowBuilder.RowField(0, rows[i]) != key
    ensures key in LoadedPostcodes(postcodes, rows) <==> key in postcodes
    ensures key in postcodes ==> LoadedPostcodes(postcodes, rows)[key] == postcodes[key]
  {
    var p := RedisManager.HSetPipeline(rows);
    RedisManager.ApplyPipelineAt(postcodes, p, key);
    forall i | 0 <= i < |p|
      ensures p[i].field != key
    {
      LoadCommandAt(rows, i);
    }
  }

  /** Every memoised answer is the one `bootstrap_cache` computes: true for `POSTCODE` only. */
  predicate SoundMemo(memo: map<string, bool>)
  {
    forall t :: t in memo ==> memo[t] == (t == PostcodeTableName)
  }

  /** Memoising the computed answer keeps a sound memo sound. */
  lemma SoundMemoUpdate(memo: map<string, bool>, table: string)
    requires SoundMemo(memo)
    ensures SoundMemo(memo[table := table == PostcodeTableName])
  {
    var m := memo[table := table == PostcodeTableName];
    forall t | t in m
      ensures m[t] == (t == PostcodeTableName)
    {
      if t != table {
        assert m[t] == memo[t];
      }
    }
  }

  /**
   * The resolver's state: the dataset, the `cached!` memo of
   * `bootstrap_cache` (table name -> answer), the `POSTCODE` hash and the
   * geo store (normalised postcode -> (lon, lat) of its `UK` member).
   */
  class Geocoder {
    const rows: seq<Record>
    var memo: map<string, bool>
    var postcodes: map<string, string>
    var geo: map<string, (real, real)>

    /** The dataset has the three columns of its header in every record. */
    predicate Valid()
    {
      WellFormed(rows)
    }

    /** Every memoised answer is the one `bootstrap_cache` computes: true for `POSTCODE` only. */
    predicate MemoSound()
      reads this
    {
      SoundMemo(memo)
    }

    /** What `is_bootstrapped` answers from this state. */
    predicate UsesStore()
      reads this
    {
      PostcodeTableName !in memo || memo[PostcodeTableName]
    }

    /** A fresh process: nothing memoised yet. */
    constructor (rows: seq<Record>, postcodes: map<string, string>, geo: map<string, (real, real)>)
      requires WellFormed(rows)
      ensures this.rows == rows && this.postcodes == postcodes && this.geo == geo
      ensures memo == map[]
      ensures Valid() && MemoSound()
    {
      this.rows := rows;
      this.postcodes := postcodes;
      this.geo := geo;
      this.memo := map[];
    }

    /**
     * `bootstrap_cache(table)`: a memoised answer is returned as is; otherwise
     * the answer is true exactly for `POSTCODE`, whose hash is bulk-loaded
     * first when it holds fewer fields than the dataset has records.
     */
    method BootstrapCache(table: string) returns (b: bool)
      requires Valid()
      modifies this
      ensures b == (if table in old(memo) then old(memo)[table] else table == PostcodeTableName)
      ensures memo == old(memo)[table := b]
      ensures postcodes == AfterBootstrap(old(memo), old(postcodes), rows, table)
      ensures geo == old(geo)
    {
      if table in memo {
        b := memo[table];
        assert memo[table := b] == memo;
      } else if table == PostcodeTableName {
        if |postcodes| < PostcodeCsvSize {
          var read, pipeline := RedisManager.BulkSet(rows);
          postcodes := RedisManager.ApplyPipeline(postcodes, pipeline);
        }
        b := true;
        memo := memo[table := b];
      } else {
        b := false;
        memo := memo[table := b];
      }
    }

    /** `is_bootstrapped`: `bootstrap_cache("POSTCODE")`; from a sound memo it is always true. */
    method IsBootstrapped() returns (b: bool)
      requires Valid()
      modifies this
      ensures b == old(UsesStore())
      ensures old(MemoSound()) ==> b
      ensures memo == old(memo)[PostcodeTableName := b]
      ensures postcodes == AfterBootstrap(old(memo), old(postcodes), rows, PostcodeTableName)
      ensures geo == old(geo)
      ensures old(MemoSound()) ==> MemoSound()
    {
      ghost var before := memo;
      b := BootstrapCache(PostcodeTableName);
      if SoundMemo(before) && PostcodeTableName !in before {
        SoundMemoUpdate(before, PostcodeTableName);
      }
    }

    /** Two checks in a row load the dataset at most once: the second answers from the memo. */
    method IsBootstrappedTwice() returns (first: bool, second: bool)
      requires Valid() && MemoSound()
      modifies this
      ensures first && second
      ensures postcodes == AfterBootstrap(old(memo), old(postcodes), rows, PostcodeTableName)
      ensures memo == old(memo)[PostcodeTableName := true]
    {
      first := IsBootstrapped();
      second := IsBootstrapped();
    }

    /**
     * `reverse_search`: the stored or file coordinates of `query` (used as
     * given, not normalised), never the sentinel.
     */
    method ReverseSearch(query: string) returns (r: Result<string>)
      requires Valid()
      modifies this
      ensures r.Ok? ==> r.value != Sentinel
      ensures r == FilterFound(query,
                     if old(UsesStore()) then ReverseSearchCacheTable(postcodes, query)
                     else ReverseSearchFile(rows, query))
      ensures memo == old(memo)[PostcodeTableName := old(UsesStore())]
      ensures postcodes == AfterBootstrap(old(memo), old(postcodes), rows, PostcodeTableName)
      ensures geo == old(geo)
    {
      var bootstrapped := IsBootstrapped();
      var coordinates: Result<string>;
      if bootstrapped {
        coordinates := ReverseSearchCacheTable(postcodes, query);
      } else {
        coordinates := ReverseSearchFile(rows, query);
      }
      r := FilterFound(query, coordinates);
    }

    /**
     * `forward_search`: the postcode for a coordinate list, from the store's
     * scan reply or from the file (which panics unless the first coordinate
     * occurs in the dataset).
     */
    method ForwardSearch(latLon: seq<string>, hscan: string -> Result<string>) returns (postcode: string)
      requires Valid()
      requires !UsesStore() ==> |latLon| > 0 && FirstMatch(rows, latLon[0]).Some?
      modifies this
      ensures postcode == if old(UsesStore()) then ForwardSearchCacheTable(latLon, hscan) else ForwardSearchFile(rows, latLon)
      ensures memo == old(memo)[PostcodeTableName := old(UsesStore())]
      ensures postcodes == AfterBootstrap(old(memo), old(postcodes), rows, PostcodeTableName)
      ensures geo == old(geo)
    {
      var bootstrapped := IsBootstrapped();
      if bootstrapped {
        postcode := ForwardSearchCacheTable(latLon, hscan);
      } else {
        postcode := ForwardSearchFile(rows, latLon);
      }
    }
  }
}
