/**
 * The parts of the routing library's problem format (`vrp_pragmatic::format`)
 * that the core builds. Fields the core always leaves `None` and whose types
 * live only in that library (breaks, reloads, skills, limits, relations,
 * objectives, config) are not represented.
 */
module VrpFormat {
  import opened Wrappers

  /** A point, longitude first as in the library. */
  datatype Location = Location(lng: real, lat: real)

  datatype JobPlace = JobPlace(location: Location, duration: real, times: Option<seq<seq<string>>>)

  datatype JobTask = JobTask(places: seq<JobPlace>, demand: Option<seq<int>>, tag: Option<string>)

  datatype Job = Job(
    id: string,
    pickups: Option<seq<JobTask>>,
    deliveries: Option<seq<JobTask>>,
    replacements: Option<seq<JobTask>>,
    services: Option<seq<JobTask>>,
    priority: Option<int>)

  datatype VehicleCosts = VehicleCosts(fixed: Option<real>, distance: real, time: real)

  datatype VehiclePlace = VehiclePlace(time: string, location: Location)

  datatype VehicleShift = VehicleShift(start: VehiclePlace, end: Option<VehiclePlace>)

  datatype VehicleType = VehicleType(
    typeId: string,
    vehicleIds: seq<string>,
    profile: string,
    costs: VehicleCosts,
    shifts: seq<VehicleShift>,
    capacity: seq<int>)

  datatype Profile = Profile(name: string, profileType: string, speed: Option<real>)

  datatype Plan = Plan(jobs: seq<Job>)

  datatype Fleet = Fleet(vehicles: seq<VehicleType>, profiles: seq<Profile>)

  datatype Problem = Problem(plan: Plan, fleet: Fleet)

  /** A routing matrix: travel times and distances in the order of the submitted coordinates. */
  datatype Matrix = Matrix(
    profile: Option<string>,
    timestamp: Option<string>,
    travelTimes: seq<int>,
    distances: seq<int>,
    errorCodes: Option<seq<int>>)
}
