/**
 * Conversion of incoming route requests into the routing library's problem
 * format (src/request.rs). Postcode lookup is a parameter: it resolves a
 * postcode to a location or fails. The parallel map over resolved locations
 * is modelled sequentially, since an indexed collect keeps the order.
 */
module Request {
  import opened Wrappers
  import opened Text
  import VrpFormat

  // ---------------------------------------------------------------------------
  // Simple trips

  /** A request naming vehicle start postcodes and job postcodes. */
  datatype SimpleTrip = SimpleTrip(coordinateVehicles: seq<string>, coordinateJobs: seq<string>)

  /** `geocoding::lookup_coordinates`: a postcode to its location, or an error. */
  type Lookup = string -> Result<VrpFormat.Location>

  /** The `Ok` values of a sequence of lookups, in order (the left half of the partition). */
  function Successes(results: seq<Result<VrpFormat.Location>>): (r: seq<VrpFormat.Location>)
    ensures |r| <= |results|
  {
    if |results| == 0 then []
    else
      var last := results[|results| - 1];
      Successes(results[..|results| - 1]) + (if last.Ok? then [last.value] else [])
  }

  /** The errors of a sequence of lookups, in order (the right half of the partition). */
  function Failures(results: seq<Result<VrpFormat.Location>>): (r: seq<string>)
    ensures |r| <= |results|
  {
    if |results| == 0 then []
    else
      var last := results[|results| - 1];
      Failures(results[..|results| - 1]) + (if last.Err? then [last.error] else [])
  }

  /** The partition loses nothing: every lookup lands on exactly one side. */
  lemma {:induction false} PartitionCount(results: seq<Result<VrpFormat.Location>>)
    ensures |Successes(results)| + |Failures(results)| == |results|
    decreases |results|
  {
    if |results| > 0 {
      PartitionCount(results[..|results| - 1]);
    }
  }

  /** Partitioning a concatenation partitions each part. */
  lemma {:induction false} SuccessesConcat(a: seq<Result<VrpFormat.Location>>, b: seq<Result<VrpFormat.Location>>)
    ensures Successes(a + b) == Successes(a) + Successes(b)
    decreases |b|
  {
    if |b| == 0 {
      assert a + b == a;
    } else {
      assert (a + b)[..|a + b| - 1] == a + b[..|b| - 1];
      SuccessesConcat(a, b[..|b| - 1]);
    }
  }

  /**
   * Order is kept: a successful lookup at index i is the success numbered by
   * how many successes come before it.
   */
  lemma SuccessAt(results: seq<Result<VrpFormat.Location>>, i: nat)
    requires i < |results| && results[i].Ok?
    ensures |Successes(results[..i])| < |Successes(results)|
    ensures Successes(results)[|Successes(results[..i])|] == results[i].value
  {
    assert results == results[..i] + [results[i]] + results[i + 1..];
    SuccessesConcat(results[..i] + [results[i]], results[i + 1..]);
    SuccessesConcat(results[..i], [results[i]]);
    assert Successes([results[i]]) == [results[i].value] by {
      assert [results[i]][..0] == [];
    }
  }

  /** Nothing but successes: the j-th kept value is the value of some successful lookup. */
  lemma {:induction false} SuccessesFromOk(results: seq<Result<VrpFormat.Location>>, j: nat)
    requires j < |Successes(results)|
    ensures exists i :: 0 <= i < |results| && results[i].Ok? && results[i].value == Successes(results)[j]
    decreases |results|
  {
    var prefix := results[..|results| - 1];
    var last := results[|results| - 1];
    assert Successes(results) == Successes(prefix) + (if last.Ok? then [last.value] else []);
    if j < |Successes(prefix)| {
      SuccessesFromOk(prefix, j);
      var i :| 0 <= i < |prefix| && prefix[i].Ok? && prefix[i].value == Successes(prefix)[j];
      assert results[i] == prefix[i];
    } else {
      assert last.Ok? && last.value == Successes(results)[j];
    }
  }

  /** When every lookup succeeds, nothing is dropped. */
  lemma {:induction false} SuccessesAllOk(results: seq<Result<VrpFormat.Location>>)
    requires forall i :: 0 <= i < |results| ==> results[i].Ok?
    ensures |Successes(results)| == |results|
    ensures forall i :: 0 <= i < |results| ==> Successes(results)[i] == results[i].value
    decreases |results|
  {
    if |results| > 0 {
      SuccessesAllOk(results[..|results| - 1]);
    }
  }

  /** Each postcode looked up, in order. */
  function LookupAll(lookup: Lookup, postcodes: seq<string>): (r: seq<Result<VrpFormat.Location>>)
    ensures |r| == |postcodes|
    ensures forall i :: 0 <= i < |postcodes| ==> r[i] == lookup(postcodes[i])
  {
    if |postcodes| == 0 then [] else LookupAll(lookup, postcodes[..|postcodes| - 1]) + [lookup(postcodes[|postcodes| - 1])]
  }

  /** The locations of the postcodes that resolve, in input order; failures are dropped. */
  function Resolved(lookup: Lookup, postcodes: seq<string>): seq<VrpFormat.Location>
  {
    Successes(LookupAll(lookup, postcodes))
  }

  /** `JOB_LENGTH` minutes. */
  const JobLengthMinutes: nat := 120

  /** `Duration::minutes(JOB_LENGTH).num_seconds() as f64`. */
  const JobDurationSeconds: real := (JobLengthMinutes * 60) as real

  const JobTag := "Simple 120 minute task"

  /** The k-th simple job: a single service at `location`. */
  function ServiceJob(k: nat, location: VrpFormat.Location): (j: VrpFormat.Job)
    ensures j.id == NatToString(k)
    ensures j.pickups.None? && j.deliveries.None? && j.replacements.None? && j.priority.None?
    ensures j.services.Some? && |j.services.value| == 1
    ensures var task := j.services.value[0];
      task.demand.None? && task.tag == Some(JobTag) && |task.places| == 1 &&
      task.places[0].location == location && task.places[0].duration == 7200.0 && task.places[0].times.None?
  {
    var place := VrpFormat.JobPlace(location, JobDurationSeconds, None);
    var task := VrpFormat.JobTask([place], None, Some(JobTag));
    VrpFormat.Job(NatToString(k), None, None, None, Some([task]), None)
  }

  /** The enumerated jobs for a list of locations. */
  function JobsFor(locations: seq<VrpFormat.Location>): (r: seq<VrpFormat.Job>)
    ensures |r| == |locations|
    ensures forall k :: 0 <= k < |locations| ==> r[k] == ServiceJob(k, locations[k])
  {
    if |locations| == 0 then []
    else JobsFor(locations[..|locations| - 1]) + [ServiceJob(|locations| - 1, locations[|locations| - 1])]
  }

  /** `SimpleTrip::build_jobs`: one job per job postcode that resolves, numbered from 0. */
  function BuildJobs(trip: SimpleTrip, lookup: Lookup): (r: seq<VrpFormat.Job>)
    ensures |r| == |Resolved(lookup, trip.coordinateJobs)|
    ensures forall k :: 0 <= k < |r| ==> r[k] == ServiceJob(k, Resolved(lookup, trip.coordinateJobs)[k])
  {
    JobsFor(Resolved(lookup, trip.coordinateJobs))
  }

  /** No two jobs of a simple trip share an id. */
  lemma BuildJobsDistinctIds(trip: SimpleTrip, lookup: Lookup, j: nat, k: nat)
    requires j < k < |BuildJobs(trip, lookup)|
    ensures BuildJobs(trip, lookup)[j].id != BuildJobs(trip, lookup)[k].id
  {
    NatToStringInjective(j, k);
  }

  /** The job for a postcode that resolves sits after the jobs of the earlier resolving postcodes. */
  lemma BuildJobsAt(trip: SimpleTrip, lookup: Lookup, i: nat)
    requires i < |trip.coordinateJobs| && lookup(trip.coordinateJobs[i]).Ok?
    ensures var k := |Successes(LookupAll(lookup, trip.coordinateJobs)[..i])|;
      k < |BuildJobs(trip, lookup)| &&
      BuildJobs(trip, lookup)[k].services.value[0].places[0].location == lookup(trip.coordinateJobs[i]).value
  {
    SuccessAt(LookupAll(lookup, trip.coordinateJobs), i);
  }

  /** Failed lookups are dropped: every job sits at the location of some job postcode that resolves. */
  lemma BuildJobsOnlyResolved(trip: SimpleTrip, lookup: Lookup, k: nat)
    requires k < |BuildJobs(trip, lookup)|
    ensures exists i :: 0 <= i < |trip.coordinateJobs| && lookup(trip.coordinateJobs[i]).Ok? &&
              BuildJobs(trip, lookup)[k].services.value[0].places[0].location == lookup(trip.coordinateJobs[i]).value
  {
    var rs := LookupAll(lookup, trip.coordinateJobs);
    SuccessesFromOk(rs, k);
    var i :| 0 <= i < |rs| && rs[i].Ok? && rs[i].value == Successes(rs)[k];
    assert rs[i] == lookup(trip.coordinateJobs[i]);
  }

  const SimpleProfileName := "normal_car"

  /** `FOURTY_MPH_IN_METRES_PER_SECOND`. */
  const FortyMphInMetresPerSecond: real := 17.0

  /**
   * The clock `build_vehicles` reads, once per vehicle: `clock(i)` is the
   * RFC 3339 time read while vehicle i is built. Nothing relates two readings.
   */
  type Clock = nat -> string

  /** The i-th vehicle: its own type, starting at the time `now` at `location`, with no end. */
  function SimpleVehicle(i: nat, location: VrpFormat.Location, now: string): (v: VrpFormat.VehicleType)
    ensures v.typeId == NatToString(i) && v.vehicleIds == [NatToString(i)]
    ensures v.profile == SimpleProfileName && v.capacity == [5]
    ensures v.costs == VrpFormat.VehicleCosts(Some(22.0), 0.0002, 0.004806)
    ensures |v.shifts| == 1 && v.shifts[0].start.location == location &&
            v.shifts[0].start.time == now && v.shifts[0].end.None?
  {
    VrpFormat.VehicleType(
      NatToString(i),
      [NatToString(i)],
      SimpleProfileName,
      VrpFormat.VehicleCosts(Some(22.0), 0.0002, 0.004806),
      [VrpFormat.VehicleShift(VrpFormat.VehiclePlace(now, location), None)],
      [5])
  }

  /** The enumerated vehicles for a list of start locations. */
  function VehiclesFor(locations: seq<VrpFormat.Location>, clock: Clock): (r: seq<VrpFormat.VehicleType>)
    ensures |r| == |locations|
    ensures forall i :: 0 <= i < |locations| ==> r[i] == SimpleVehicle(i, locations[i], clock(i))
  {
    if |locations| == 0 then []
    else VehiclesFor(locations[..|locations| - 1], clock) + [SimpleVehicle(|locations| - 1, locations[|locations| - 1], clock(|locations| - 1))]
  }

  /**
   * `SimpleTrip::build_vehicles`: one vehicle per vehicle postcode that
   * resolves; vehicle i's shift starts at the clock reading `clock(i)`.
   */
  function BuildVehicles(trip: SimpleTrip, lookup: Lookup, clock: Clock): (r: seq<VrpFormat.VehicleType>)
    ensures |r| == |Resolved(lookup, trip.coordinateVehicles)|
    ensures forall i :: 0 <= i < |r| ==> r[i] == SimpleVehicle(i, Resolved(lookup, trip.coordinateVehicles)[i], clock(i))
  {
    VehiclesFor(Resolved(lookup, trip.coordinateVehicles), clock)
  }

  /** No two vehicles of a simple trip share a type id or a vehicle id. */
  lemma BuildVehiclesDistinctIds(trip: SimpleTrip, lookup: Lookup, clock: Clock, i: nat, k: nat)
    requires i < k < |BuildVehicles(trip, lookup, clock)|
    ensures BuildVehicles(trip, lookup, clock)[i].typeId != BuildVehicles(trip, lookup, clock)[k].typeId
    ensures BuildVehicles(trip, lookup, clock)[i].vehicleIds[0] != BuildVehicles(trip, lookup, clock)[k].vehicleIds[0]
  {
    NatToStringInjective(i, k);
  }

  /** Failed lookups are dropped: every vehicle starts at the location of some vehicle postcode that resolves. */
  lemma BuildVehiclesOnlyResolved(trip: SimpleTrip, lookup: Lookup, clock: Clock, k: nat)
    requires k < |BuildVehicles(trip, lookup, clock)|
    ensures exists i :: 0 <= i < |trip.coordinateVehicles| && lookup(trip.coordinateVehicles[i]).Ok? &&
              BuildVehicles(trip, lookup, clock)[k].shifts[0].start.location == lookup(trip.coordinateVehicles[i]).value
  {
    var rs := LookupAll(lookup, trip.coordinateVehicles);
    SuccessesFromOk(rs, k);
    var i :| 0 <= i < |rs| && rs[i].Ok? && rs[i].value == Successes(rs)[k];
    assert rs[i] == lookup(trip.coordinateVehicles[i]);
  }

  /** `SimpleTrip::get_simple_profile`. */
  function GetSimpleProfile(): (p: VrpFormat.Profile)
    ensures p.name == SimpleProfileName && p.profileType == "car" && p.speed == Some(17.0)
  {
    VrpFormat.Profile(SimpleProfileName, "car", Some(FortyMphInMetresPerSecond))
  }

  /** `SimpleTrip::convert_to_internal_problem`: never fails. */
  function ConvertSimpleTrip(trip: SimpleTrip, lookup: Lookup, clock: Clock): (r: Result<VrpFormat.Problem>)
    ensures r.Ok?
    ensures r.value.plan.jobs == BuildJobs(trip, lookup)
    ensures r.value.fleet.vehicles == BuildVehicles(trip, lookup, clock)
    ensures r.value.fleet.profiles == [GetSimpleProfile()]
  {
    Ok(VrpFormat.Problem(
      VrpFormat.Plan(BuildJobs(trip, lookup)),
      VrpFormat.Fleet(BuildVehicles(trip, lookup, clock), [GetSimpleProfile()])))
  }

  /** Every vehicle a simple trip produces uses a profile the problem declares. */
  lemma SimpleTripProfilesDeclared(trip: SimpleTrip, lookup: Lookup, clock: Clock, i: nat)
    requires i < |ConvertSimpleTrip(trip, lookup, clock).value.fleet.vehicles|
    ensures var problem := ConvertSimpleTrip(trip, lookup, clock).value;
      exists p :: p in problem.fleet.profiles && p.name == problem.fleet.vehicles[i].profile
  {
    var problem := ConvertSimpleTrip(trip, lookup, clock).value;
    assert problem.fleet.profiles[0] in problem.fleet.profiles;
  }

  // ---------------------------------------------------------------------------
  // Detailed requests

  datatype Place = Place(postcode: string, duration: real)

  datatype Delivery = Delivery(places: seq<Place>, priority: int, properties: seq<string>)

  datatype Job = Job(id: string, deliveries: seq<Delivery>)

  datatype Plan = Plan(jobs: seq<Job>)

  datatype Costs = Costs(fixed: real, distance: real, time: real)

  datatype Start = Start(time: string, postcode: string)

  datatype End = End(time: string, postcode: string)

  datatype Shift = Shift(start: Start, end: End)

  /** A requested vehicle; `capacity` is an `i32` in the source. */
  datatype Vehicle = Vehicle(vehicleIds: seq<string>, costs: Costs, shifts: seq<Shift>, capacity: int)

  datatype Fleet = Fleet(vehicles: seq<Vehicle>)

  /** A request with explicit jobs and vehicles. */
  datatype DetailedRequest = DetailedRequest(plan: Plan, fleet: Fleet)

  /** The placeholder location every detailed shift gets. */
  const Origin := VrpFormat.Location(0.0, 0.0)

  /** A requested shift: its times kept, both ends at the placeholder location. */
  function ConvertShift(shift: Shift): (s: VrpFormat.VehicleShift)
    ensures s.start == VrpFormat.VehiclePlace(shift.start.time, Origin)
    ensures s.end == Some(VrpFormat.VehiclePlace(shift.end.time, Origin))
  {
    VrpFormat.VehicleShift(VrpFormat.VehiclePlace(shift.start.time, Origin), Some(VrpFormat.VehiclePlace(shift.end.time, Origin)))
  }

  function ConvertShifts(shifts: seq<Shift>): (r: seq<VrpFormat.VehicleShift>)
    ensures |r| == |shifts|
    ensures forall i :: 0 <= i < |shifts| ==> r[i] == ConvertShift(shifts[i])
  {
    if |shifts| == 0 then [] else ConvertShifts(shifts[..|shifts| - 1]) + [ConvertShift(shifts[|shifts| - 1])]
  }

  /** A requested vehicle as a vehicle type of the shared `vehicle` type on the `car` profile. */
  function ConvertVehicle(vehicle: Vehicle): (v: VrpFormat.VehicleType)
    ensures v.typeId == "vehicle" && v.profile == "car"
    ensures v.vehicleIds == vehicle.vehicleIds
    ensures v.costs == VrpFormat.VehicleCosts(Some(vehicle.costs.fixed), vehicle.costs.distance, vehicle.costs.time)
    ensures v.capacity == [vehicle.capacity]
    ensures |v.shifts| == |vehicle.shifts|
    ensures forall i :: 0 <= i < |vehicle.shifts| ==> v.shifts[i] == ConvertShift(vehicle.shifts[i])
  {
    VrpFormat.VehicleType(
      "vehicle",
      vehicle.vehicleIds,
      "car",
      VrpFormat.VehicleCosts(Some(vehicle.costs.fixed), vehicle.costs.distance, vehicle.costs.time),
      ConvertShifts(vehicle.shifts),
      [vehicle.capacity])
  }

  function ConvertVehicles(vehicles: seq<Vehicle>): (r: seq<VrpFormat.VehicleType>)
    ensures |r| == |vehicles|
    ensures forall i :: 0 <= i < |vehicles| ==> r[i] == ConvertVehicle(vehicles[i])
  {
    if |vehicles| == 0 then [] else ConvertVehicles(vehicles[..|vehicles| - 1]) + [ConvertVehicle(vehicles[|vehicles| - 1])]
  }

  /**
   * `DetailedRequest::convert_to_internal_problem`: the vehicles converted one
   * to one, the requested jobs dropped, and a single `car` profile.
   */
  function ConvertDetailedRequest(request: DetailedRequest): (p: VrpFormat.Problem)
    ensures p.plan.jobs == []
    ensures p.fleet.profiles == [VrpFormat.Profile("car", "car", None)]
    ensures |p.fleet.vehicles| == |request.fleet.vehicles|
    ensures forall i :: 0 <= i < |request.fleet.vehicles| ==> p.fleet.vehicles[i] == ConvertVehicle(request.fleet.vehicles[i])
  {
    VrpFormat.Problem(
      VrpFormat.Plan([]),
      VrpFormat.Fleet(ConvertVehicles(request.fleet.vehicles), [VrpFormat.Profile("car", "car", None)]))
  }

  /** Every vehicle of a detailed request uses the one profile the problem declares. */
  lemma DetailedProfilesDeclared(request: DetailedRequest, i: nat)
    requires i < |request.fleet.vehicles|
    ensures ConvertDetailedRequest(request).fleet.vehicles[i].profile == ConvertDetailedRequest(request).fleet.profiles[0].name
  {
  }
}
