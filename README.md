# grekko core in Dafny

This project models the parts of the grekko routing service that decide things.

- **Geocoding.** The service turns UK postcodes into coordinates and back. It reads either from Redis or by a linear scan of the `postcodes.csv` dataset.
- **Bootstrap.** A memoised bootstrap decides whether the Redis cache is used. When the cache is short of records, the bootstrap bulk-loads it first.
- **Matrices.** Travel-time and distance matrices come from an OSRM table service.
- **Requests.** Route requests are converted into the routing library's problem format.

Everything outside the service is a parameter of the model:

- the dataset is a sequence of string records;
- the Redis hash and the geo set are maps, and a pipeline is a sequence of queued commands;
- the OSRM engine is a function from sources and destinations to a table of optional cells;
- postcode lookup is a function;
- the clock reading is a string.

Rust panics (`unwrap`, `expect`, out-of-range indexing) become preconditions. Recoverable failures become `Result`/`Option` values.

Modules follow the source files:

- `Geocoding` is `src/geocoding.rs`. It is a set of functions plus the class `Geocoder`. The class holds the `cached!` memo, the `POSTCODE` hash and the geo store as fields that its methods update.
- `RowBuilder` is `src/redis_manager/builder.rs`.
- `RedisManagerMod` is `src/redis_manager/mod.rs`.
- `RedisManager` is `src/redis_manager.rs`.
- `OsrmService` is `src/osrm_service.rs`. Its probing loops and `generic_trip` are methods with loops, proved against specification functions.
- `Request` is `src/request.rs`.
- `Filter` is `src/filter.rs`.
- `GeocodingSearch` is `src/geocoding/mod.rs`.
- `UserStructs` is `src/user/structs.rs`.
- `Wrappers`, `Text`, `Dataset` and `VrpFormat` are shared vocabulary: result types, string operations, the dataset and its first-match search, and the problem format.

In these places the code does not do what the service is meant to do. The model follows the code:

- **Spaced postcodes on the file path.** The file scan is meant to find `"AB1 0AJ"` when the cache is unreachable. The code removes spaces from the query before comparing it with dataset fields, which keep their space. So that query finds nothing. `Geocoding.FileSearchMissesSpacedQuery` proves it. The hyphenated spelling `"AB1-0AJ"` is found (`Geocoding.ReverseSearchFileExample`).
- **Bootstrap.** An unreachable store is meant to leave the cache unbootstrapped and yield false. In the code the answer is true for the `POSTCODE` table whenever it is computed, and an unreachable store panics. The store's count only decides whether a bulk load runs first (fewer than 2628568 fields).
- **Sentinel rows in the bootstrap load.** The bootstrap load is meant never to write sentinel rows. `bootstrap_cache` calls the `bulk_set` loader, which writes every record. Only the geo loader `bulk_set_csv` skips them. The model follows the code on both paths: `RedisManager.HSetPipeline` has one command per record, and `RedisManagerMod.GeoPipeline` filters.
- **Normalising the store lookup.** `reverse` is meant to normalise its input before the store lookup. `reverse_search` looks the query up as given (`Geocoding.Geocoder.ReverseSearch`). Only `get_location_from_postcode` normalises.
- **Which field the scans compare.** The scans are meant to compare the postcode field, or the coordinate fields. Both file scans accept a match in any field of a record (`Dataset.FirstMatch`).
- **Forward lookup.** A forward lookup is meant to use both coordinates. The file scan compares only the first coordinate's text (`Geocoding.ForwardSearchFileIgnoresRest`).

`bootstrap_cache` calls `count(table)` and `bulk_set(reader, table)`. `count(table)` matches src/redis_manager.rs:80, which answers the number of fields of the hash `table`; the model reads it as the size of the `POSTCODE` hash. `bulk_set` in src/redis_manager.rs:87 takes only the reader, yet it is called with the table as well. The model loads with that `bulk_set`, which always writes the `POSTCODE` hash, the table the call passes.

## Model

| member | source | states |
|---|---|---|
| RowBuilder.RowValue | src/redis_manager/builder.rs:3-9 | the stored value is latitude, `;`, longitude; when neither column holds `;`, splitting it on `;` gives back exactly the two columns |
| RowBuilder.RowTuple | src/redis_manager/builder.rs:11-17 | the pair is (longitude, latitude) although the latitude index is passed first |
| RowBuilder.RowField | src/redis_manager/builder.rs:19-24 | the key is the postcode column with every space deleted and the other characters kept in order: it has no space, keeps each other character as often as before, and a column without spaces is kept as is |
| RowBuilder.RowFieldJoinsParts | src/redis_manager/builder.rs:19-24 | a column `a b` whose two parts hold no space has the key `a` followed by `b` |
| RedisManager.RowCommand | src/redis_manager.rs:103-115 | each row becomes an `HSET` on table `POSTCODE` whose field is the row's key `RowField` and whose value splits back into latitude and longitude |
| RedisManager.HSetPipeline | src/redis_manager.rs:100-117 | one command per row, command i built from row i, in row order |
| RedisManager.BulkSet | src/redis_manager.rs:87-117 | the loop counts every row and queues exactly the pipeline of all rows in order |
| RedisManager.LastWrite | src/redis_manager.rs:119 | no value when no queued command writes the field, otherwise the value of the last command that writes it |
| RedisManager.ApplyPipelineAt | src/redis_manager.rs:100-119 | after the pipeline runs, a written field holds its last write and every other field is unchanged |
| RedisManager.Get | src/redis_manager.rs:46-55 | a failed read gives `None`; a read value gives what deserialising it gives |
| RedisManager.Set | src/redis_manager.rs:57-78 | `None` exactly when the write fails; on success the message names value, table, key and the reply count |
| RedisManagerMod.GeoRowCommand | src/redis_manager/mod.rs:259-268 | a row becomes a `GEOADD` of member `UK` at (longitude, latitude) under the row's key `RowField` |
| RedisManagerMod.GeoPipeline | src/redis_manager/mod.rs:258-270 | at most one command per row, and no queued command carries the latitude `99.999999` or the longitude `0.000000` |
| RedisManagerMod.GeoPipelineConcat | src/redis_manager/mod.rs:258-270 | the pipeline of a concatenation is the concatenation of the pipelines, so row order is kept |
| RedisManagerMod.GeoPipelineSingle | src/redis_manager/mod.rs:261-269 | a single row is queued exactly when neither coordinate is its placeholder |
| RedisManagerMod.SentinelComponentSkips | src/redis_manager/mod.rs:262 | a row is skipped when EITHER its latitude is `99.999999` OR its longitude is `0.000000` |
| RedisManagerMod.BulkSetCsv | src/redis_manager/mod.rs:226-288 | counts every row, including skipped ones; queues exactly the filtered geo pipeline; reports success exactly when the pipeline succeeds |
| RedisManagerMod.GetGeoPos | src/redis_manager/mod.rs:153-187 | Ok exactly when the reply holds a non-empty first position, and then it is (first, second) of that position; a store error is passed on; an empty position is the `Returned empty coordinates` error; an empty list of positions is the `Could not get coordinates from []` error |
| RedisManagerMod.PostcodePattern | src/redis_manager/mod.rs:203-208 | the coordinates joined by `;`; the pattern splits back into the coordinates when none holds `;` |
| RedisManagerMod.PostcodePatternPair | src/redis_manager/mod.rs:204-208 | a two-coordinate pattern is the first, `;`, then the second |
| RedisManagerMod.JsonPath | src/redis_manager/mod.rs:59-75 | the given path, or `.` when none is given |
| RedisManagerMod.SetJsonCommand | src/redis_manager/mod.rs:59-75 | four words: `JSON.SET`, the key, the given path or `.` when none is given, and the JSON text |
| RedisManagerMod.GetJsonCommand | src/redis_manager/mod.rs:97-105 | three words: `JSON.GET`, the key, and the given path or `.` when none is given |
| RedisManagerMod.JsonPathDefault | src/redis_manager/mod.rs:97-105 | giving no path is the same command as giving `.` |
| RedisManagerMod.SetJsonResult | src/redis_manager/mod.rs:59-88 | a message exactly when the value serialises and the write succeeds, naming value, key and reply |
| Geocoding.BuildCacheKey | src/geocoding.rs:158-165 | the key contains no space, hyphen, comma or `;`, and is no longer than the query |
| Geocoding.BuildCacheKeyContents | src/geocoding.rs:158-165 | every other character is kept, each as often as in the query |
| Geocoding.BuildCacheKeyConcat | src/geocoding.rs:158-165 | normalising distributes over concatenation, so the kept characters stay in order |
| Geocoding.BuildCacheKeyUnchanged | src/geocoding.rs:158-165 | a text without the four separators is already its own key |
| Geocoding.BuildCacheKeyIdempotent | src/geocoding.rs:158-165 | normalising a key again changes nothing |
| Geocoding.BuildCacheKeyAllSeparators | src/geocoding.rs:161-164 | a text made only of separators becomes the empty key |
| Geocoding.BuildCacheKeyAround | src/geocoding.rs:158-165 | separators between two separator-free parts vanish and the parts are joined |
| Geocoding.BuildCacheKeyExample | src/geocoding.rs:196-205 | `"IMAGINARY; -,POSTCODE"` becomes `"IMAGINARYPOSTCODE"` |
| Geocoding.BuildCacheKeyCollapsesFormats | src/geocoding.rs:158-165 | `AB1 0AJ`, `AB1-0AJ` and `AB10AJ` all have the key `AB10AJ` |
| Geocoding.RowFieldIsCacheKey | src/redis_manager/builder.rs:19-24 | for a postcode without hyphen, comma or `;`, the key the bulk loader writes is the key a lookup of that postcode uses (src/geocoding.rs:158-165) |
| Geocoding.CheckCoordinateString | src/geocoding.rs:83-91 | Err exactly when the text is `99.999999;0.000000`, with a message naming the query; otherwise the text unchanged |
| Geocoding.FilterFound | src/geocoding.rs:75-80 | a lookup error is passed on; a found text is returned unless it is the placeholder; the result is never the placeholder |
| Geocoding.ReverseSearchCacheTable | src/geocoding.rs:93-98 | Ok exactly when the postcode is a field of the `POSTCODE` hash, with its stored value; otherwise an error naming postcode and table |
| Geocoding.ForwardSearchCacheTable | src/geocoding.rs:132-137 | the scan's reply for the `;`-joined coordinates, or `Postcode couldn't be found` when the scan fails |
| Geocoding.GeoPosReply | src/redis_manager/mod.rs:156-161 | the geo store answers one position: the stored (lon, lat) of the key's `UK` member, or an empty one |
| Geocoding.MapToLocation | src/geocoding.rs:70-72 | longitude and latitude go into the location's fields of the same name |
| Geocoding.GetLocationFromPostcode | src/geocoding.rs:52-61 | Ok exactly when the normalised query is a key of the geo store, and then the location is that key's (lon, lat); otherwise the empty-coordinates error for the key |
| Geocoding.GetLocationFromPostcodeSpellings | src/geocoding.rs:52-61 | spellings that differ only in separators resolve to the same result |
| Geocoding.GetLocationFromTable | src/geocoding.rs:62-66 | a lookup error is passed on; the pieces are parsed left to right, so an unparsable first piece is that piece's parse error (`cannot parse float from empty string` or `invalid float literal`) before the second is looked at; Ok exactly when both pieces parse, and then it is the parsed first and second piece in that order |
| Geocoding.GetLocationFromTableOnePiece | src/geocoding.rs:62-66 | a text without `;` whose one piece does not parse is returned as that parse error, with no second piece needed |
| Geocoding.GetLocationFromTableLatitudeFirst | src/geocoding.rs:55-65 | on a stored `lat;lon` value the table path yields (lat, lon), which its caller binds as (lng, lat) |
| Geocoding.FileQuery | src/geocoding.rs:109 | the compared text has no hyphen; for a query without spaces it is the query with hyphens made spaces |
| Geocoding.ReverseSearchFile | src/geocoding.rs:99-123 | Ok exactly when some record holds the transformed query in some field; then it is `lat;lon` of the earliest such record; otherwise the `Unable to find coordinates for` error |
| Geocoding.ForwardSearchFile | src/geocoding.rs:138-153 | the postcode column of the earliest record holding the first coordinate's text in some field |
| Geocoding.ForwardSearchFileIgnoresRest | src/geocoding.rs:147 | two coordinate lists with the same first element give the same postcode |
| Geocoding.FileQueryHyphen | src/geocoding.rs:109 | a hyphenated postcode `a-b` is compared as `a b` |
| Geocoding.ReverseSearchFileExample | src/geocoding.rs:185-189 | on the record `AB1 0AJ, 57.099011, -2.252854`, the query `AB1-0AJ` gives `57.099011;-2.252854` |
| Geocoding.ForwardSearchFileExample | src/geocoding.rs:178-183 | on that record, the coordinates `57.099011, -2.252854` give `AB1 0AJ` |
| Geocoding.SpacedQueryMisses | src/geocoding.rs:104-110 | a query holding a space is compared without it, so it matches no field at least as long as the query and the scan fails |
| Geocoding.FileSearchMissesSpacedQuery | src/geocoding.rs:109 | on that record, the query `AB1 0AJ` finds nothing, because its space is removed |
| Geocoding.LoadedPostcodesAt | src/geocoding.rs:35-38 | after the bulk load, a postcode key that some record has holds the `lat;lon` of the LAST record with that key: that record has the key and no later record has it |
| Geocoding.LoadLastRecord | src/redis_manager.rs:100-117 | when some record has the key, the pipeline's last write to it is the `lat;lon` of a record with that key after which no record has it |
| Geocoding.LoadedPostcodesUntouched | src/geocoding.rs:35-38 | a field that no record's key names keeps its old presence and value through the bulk load |
| Geocoding.SoundMemoUpdate | src/geocoding.rs:25-49 | memoising the computed answer (true for `POSTCODE` only) keeps every memo entry equal to what `bootstrap_cache` computes |
| Geocoding.Geocoder.constructor | src/geocoding.rs:25-27 | a fresh process starts with an empty memo and the given store contents |
| Geocoding.Geocoder.BootstrapCache | src/geocoding.rs:25-49 | a memoised answer is returned and nothing changes; otherwise the answer is true exactly for `POSTCODE` and is memoised; the hash is bulk-loaded exactly when the table is `POSTCODE`, not memoised and short of 2628568 fields; the geo store is untouched |
| Geocoding.Geocoder.IsBootstrapped | src/geocoding.rs:155-157 | answers the memoised `POSTCODE` answer, or true on first use; from a sound memo it is always true and the memo stays sound |
| Geocoding.Geocoder.IsBootstrappedTwice | src/geocoding.rs:25-27 | two checks in a row both answer true, and the load happens at most once |
| Geocoding.Geocoder.ReverseSearch | src/geocoding.rs:74-81 | the store or file result, chosen by the bootstrap answer and passed through the placeholder filter; never the placeholder |
| Geocoding.Geocoder.ForwardSearch | src/geocoding.rs:125-131 | the store scan's or the file scan's postcode, chosen by the bootstrap answer |
| Dataset.FirstMatch | src/geocoding.rs:102-110 | some record holds the target exactly when a match is found; the match is the earliest record holding it |
| GeocodingSearch.Search | src/geocoding/mod.rs:7-21 | fields 1 and 2 of the earliest record holding the query in any field |
| GeocodingSearch.SearchMatchesAnyColumn | src/geocoding/mod.rs:13-16 | a query equal to any column of a record, found in no earlier record, selects that record |
| GeocodingSearch.SearchEarliestWins | src/geocoding/mod.rs:10-12 | records appended after a match never change the result |
| OsrmService.Cell | src/osrm_service.rs:67 | a lookup succeeds exactly when the index is in range and the cell is present, and then gives that cell |
| OsrmService.LeadingRun | src/osrm_service.rs:66-101 | the values of consecutive successful lookups from a start index; the lookup just after them fails |
| OsrmService.LeadingRunUnique | src/osrm_service.rs:66-101 | any value list whose indices all succeed and whose next index fails is that run |
| OsrmService.SourceDurationsRun | src/osrm_service.rs:57-105 | the durations row holds the values for indices 0..k-1, where k is the first failed lookup |
| OsrmService.SourceDistancesShape | src/osrm_service.rs:117-141 | element 0 of the distances row is the DURATION at (0, 0), and the later elements are distances up to the first failed lookup |
| OsrmService.BuildSourceDuration | src/osrm_service.rs:57-105 | the probing loop returns exactly the durations run of the source's table reply, or the table error |
| OsrmService.BuildSourceDistance | src/osrm_service.rs:107-155 | the probing loop returns exactly the distances row defined above, the table error, or an error when the (0, 0) duration lookup fails |
| OsrmService.ToCoordinate | src/osrm_service.rs:43-49 | a pair `[a, b]` is read as longitude a and latitude b |
| OsrmService.Destinations | src/osrm_service.rs:43-49 | one coordinate per input pair, in order |
| OsrmService.Rows | src/osrm_service.rs:50-54 | Ok exactly when every source's row succeeds, and then row i is source i's row; otherwise the error of the first failing source |
| OsrmService.RowsFirstError | src/osrm_service.rs:50-54 | once a source's row fails after all earlier rows succeed, the rows over any longer prefix are that first error |
| OsrmService.BuildSourceRow | src/osrm_service.rs:28-33 | each pass applies its own row builder |
| OsrmService.GenericTrip | src/osrm_service.rs:37-55 | the loop returns the engine's opening error or exactly the rows above for all input coordinates |
| OsrmService.TripSpec | src/osrm_service.rs:25-35 | Ok exactly when both passes succeed, with durations first and distances second |
| OsrmService.Trip | src/osrm_service.rs:25-35 | runs the durations pass, then the distances pass, and returns what the specification gives |
| OsrmService.Trunc | src/osrm_service.rs:13 | `as i64` rounds toward zero |
| OsrmService.TruncRow | src/osrm_service.rs:10-19 | every value truncated, in order |
| OsrmService.GetMatrix | src/osrm_service.rs:5-23 | Ok exactly when the trip succeeds; then the matrix has profile `car`, no timestamp, no error codes, and travel times and distances from row 0 only |
| Request.Successes | src/request.rs:192-198 | the successful lookups' values, never more than the lookups |
| Request.SuccessesFromOk | src/request.rs:192-198 | every kept value is the value of some successful lookup |
| Request.Failures | src/request.rs:192-199 | the failed lookups' errors, never more than the lookups |
| Request.PartitionCount | src/request.rs:192-199 | every lookup lands on exactly one side of the partition |
| Request.SuccessesConcat | src/request.rs:192-198 | partitioning a concatenation partitions each part in order |
| Request.SuccessAt | src/request.rs:192-198 | a successful lookup at index i is the success numbered by the count of earlier successes, so input order is kept |
| Request.SuccessesAllOk | src/request.rs:192-198 | when every lookup succeeds, nothing is dropped |
| Request.LookupAll | src/request.rs:193-196 | each postcode is looked up, in order |
| Request.ServiceJob | src/request.rs:205-225 | job k has id k in decimal, no pickups, deliveries, replacements or priority, and one service with one place at the location, duration 7200 s and tag `Simple 120 minute task` |
| Request.JobsFor | src/request.rs:201-227 | one job per location, job k built from location k |
| Request.BuildJobs | src/request.rs:189-228 | one job per postcode that resolves, numbered from 0 in input order |
| Request.BuildJobsDistinctIds | src/request.rs:207 | no two jobs share an id |
| Request.BuildJobsAt | src/request.rs:192-214 | the job for a resolving postcode comes after the jobs of the earlier resolving postcodes and sits at that postcode's location |
| Request.BuildJobsOnlyResolved | src/request.rs:189-228 | every job sits at the location of some postcode whose lookup succeeded |
| Request.SimpleVehicle | src/request.rs:244-268 | vehicle i has type id and sole vehicle id i in decimal, profile `normal_car`, capacity [5], costs 22 / 0.0002 / 0.004806, and one shift starting at the given time at its location with no end |
| Request.VehiclesFor | src/request.rs:240-269 | one vehicle per location, vehicle i built from location i |
| Request.BuildVehicles | src/request.rs:230-270 | one vehicle per vehicle postcode that resolves, numbered from 0 in input order; vehicle i's shift starts at the clock reading taken for vehicle i |
| Request.BuildVehiclesDistinctIds | src/request.rs:246-248 | no two vehicles share a type id or a vehicle id |
| Request.BuildVehiclesOnlyResolved | src/request.rs:230-270 | every vehicle starts at the location of some vehicle postcode whose lookup succeeded |
| Request.GetSimpleProfile | src/request.rs:178-187 | the profile `normal_car` of type `car` at speed 17 |
| Request.ConvertSimpleTrip | src/request.rs:163-176 | always Ok; the built jobs, the built vehicles and exactly one profile, the simple one |
| Request.SimpleTripProfilesDeclared | src/request.rs:170-171 | every vehicle's profile is declared among the problem's profiles |
| Request.ConvertShift | src/request.rs:113-125 | start and end times are copied and both locations are (0, 0); the end is present |
| Request.ConvertShifts | src/request.rs:110-126 | shifts are converted one to one, in order |
| Request.ConvertVehicle | src/request.rs:100-131 | type id `vehicle`, profile `car`, vehicle ids and costs copied (fixed made optional), capacity [capacity], shifts converted one to one |
| Request.ConvertVehicles | src/request.rs:96-132 | vehicles are converted one to one, in order |
| Request.ConvertDetailedRequest | src/request.rs:95-153 | no jobs, the vehicles converted one to one, and the single profile `car` of type `car` without speed |
| Request.DetailedProfilesDeclared | src/request.rs:95-153 | every converted vehicle uses the problem's one profile |
| Filter.Pair | src/filter.rs:146 | a location becomes the pair [lng, lat], longitude first |
| Filter.Pairs | src/filter.rs:141-154 | one pair per postcode, in order |
| Filter.MatrixCoordinates | src/filter.rs:140-155 | the job pairs in order, then the vehicle pairs in order; the length is jobs plus vehicles; every element is a pair |
| Filter.BuildMatrix | src/filter.rs:140-158 | the `car` matrix whose rows come from row 0 of the trip over those coordinates |
| Filter.MatchOptionToWarp | src/filter.rs:93-109 | a reply exactly when `outer` is present; its payload is `real_value` when present, otherwise `outer`'s value |
| UserStructs.AddRoute | src/user/structs.rs:46-50 | one more route, the new one last, the earlier ones unchanged and in order; uid and geocoding histories unchanged |
| UserStructs.AddRoutesInOrder | src/user/structs.rs:46-50 | adding routes one after another appends them in the order added |
| UserStructs.NewUserFail | src/user/structs.rs:60-65 | the message is `Unable to find a user with id `, then the id, then a backquote |
| UserStructs.NewUserFailInjective | src/user/structs.rs:60-65 | different ids give different messages |
| Text.NatToStringInjective | src/request.rs:207 | the decimal spellings of different numbers differ |
| Text.ReplaceCharAround | src/geocoding.rs:109 | replacing a character that occurs only between two parts changes exactly that one position |
| Text.SplitJoin | src/redis_manager/mod.rs:204-208 | joining `;`-free pieces with `;` and splitting the result gives the pieces back |

## Left out

- Redis connections, `count`/`hlen`, `hget`, `HSCAN` and `GEOPOS` are not modelled as network calls. The store is maps plus reply parameters; connection failures are left out, apart from the error replies passed in.
- CSV reading and file I/O are left out. The dataset is a sequence of records after the header, each with at least the header's three columns. Byte-level UTF-8 decoding errors are not modelled.
- The OSRM engine, `Osrm::new`, `table`, `get_duration` and `get_distance` are abstract: an opening result and a table function returning optional cells. A failed cell lookup carries no error text, so where the source passes on the crate's error (the `get_duration(0, 0)?` of src/osrm_service.rs:131) the model returns the fixed text `duration lookup failed`.
- Floating-point values are `real`. `f64` parsing is a parameter. `f64`/`f32` formatting to text is not modelled, so coordinates that the source formats are text inputs. The narrowing of `f64` to `f32` in src/filter.rs:146 is not modelled.
- OsrmService.Trunc: NaN and infinity saturation of `as i64` is not modelled. Table cells are finite values.
- Geocoding.CheckCoordinateString: the message quotes the query but does not reproduce Rust's Debug escaping of quotes and backslashes inside it.
- Geocoding.GetLocationFromPostcode: only the geo branch is modelled, because the source fixes `get_from_geo_command` to true. The table branch is `Geocoding.GetLocationFromTable` on its own.
- Geocoding.GetLocationFromTable: the reverse search it calls is its input. The one panic left, on a text without `;` whose single piece parses (indexing the missing second piece), is a precondition; every other input, including an unparsable single piece, is modelled.
- Geocoding.ForwardSearchCacheTable: the HSCAN reply is a function of the match pattern. The reply's real shape, a cursor and a list, is not represented.
- Geocoding.Geocoder.BootstrapCache: memo soundness is proved in `IsBootstrapped`, for the `POSTCODE` table it always uses, rather than in this method's own contract.
- Concurrency is left out: the `tokio` background bootstrap, the thread-safety of the `cached!` memo, the `rayon` parallel maps (modelled sequentially, since an indexed collect keeps order) and the shared reader in src/main.rs.
- Fields of the problem format that the core always sets to `None` are not represented: skills, limits, breaks, reloads, relations, objectives and config.
- `geocoding::lookup_coordinates` is not part of this model. Its callers use it with two signatures. src/request.rs partitions its results as `Result`s, and src/filter.rs uses them as plain locations. The model follows each call site: `Request.Lookup` returns a `Result`, and `Filter.Pairs` takes a lookup that always yields a location.
- `chrono::Utc::now` is the `clock` parameter of `Request.BuildVehicles`: `clock(i)` is the reading taken while vehicle i is built, as the source reads the clock once per vehicle (src/request.rs:257). No order or relation between the readings is assumed, and their RFC 3339 formatting is not modelled.
- RedisManager.Set: the value written to the hash, which is the JSON serialisation of the value, is not modelled. Only the reply and the report message are, and the message uses the value's display form.
- RedisManager.BulkSet: the pipeline's result is only logged in the source, so a failed pipeline is not modelled; the model always applies every queued write.
- Logging (`log::*`, `println!`) and the `prior_count` variable, which exists only for log lines, are left out.
- src/auth.rs, src/mapbox.rs, src/user.rs, src/user/mod.rs and src/solver.rs are not part of this model. They are network, authentication and foreign solver code.
- The warp routes and server start-up in src/lib.rs and src/main.rs, and the handlers in src/filter.rs other than `build_matrix` and `match_option_to_warp`, are not part of this model.
- src/request/mod.rs duplicates the declarations of src/request.rs and is not part of this model. src/redis/mod.rs and the cache-manager traits hold no logic and are also left out.
- `append_json` in src/redis_manager/mod.rs is not part of this model. It is a Redis write with no decision in it.
