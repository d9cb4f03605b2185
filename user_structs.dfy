/**
 * A user's stored record and the rejection for an unknown user
 * (src/user/structs.rs). `add_route` takes the user by value and returns the
 * updated copy, so it is a function on a datatype here. Routes are opaque
 * solutions of type `S`.
 */
module UserStructs {
  datatype User<S> = User(
    uid: string,
    forwardGeocoding: seq<string>,
    reverseGeocoding: seq<seq<real>>,
    routes: seq<S>)

  /** `User::add_route`: the route appended last; everything else kept. */
  function AddRoute<S>(user: User<S>, route: S): (u: User<S>)
    ensures |u.routes| == |user.routes| + 1
    ensures u.routes[|user.routes|] == route
    ensures u.routes[..|user.routes|] == user.routes
    ensures u.uid == user.uid && u.forwardGeocoding == user.forwardGeocoding &&
            u.reverseGeocoding == user.reverseGeocoding
  {
    user.(routes := user.routes + [route])
  }

  /** Adding routes one after the other keeps them in the order they were added. */
  lemma {:induction false} AddRoutesInOrder<S>(user: User<S>, routes: seq<S>)
    ensures AddAll(user, routes).routes == user.routes + routes
    ensures AddAll(user, routes).uid == user.uid
    decreases |routes|
  {
    if |routes| > 0 {
      AddRoutesInOrder(user, routes[..|routes| - 1]);
      assert routes == routes[..|routes| - 1] + [routes[|routes| - 1]];
    }
  }

  /** `add_route` applied for each route in turn. */
  function AddAll<S>(user: User<S>, routes: seq<S>): User<S>
  {
    if |routes| == 0 then user else AddRoute(AddAll(user, routes[..|routes| - 1]), routes[|routes| - 1])
  }

  datatype UserFail = UserFail(message: string)

  const UnknownUserPrefix := "Unable to find a user with id `"

  /** `UserFail::new`: the message names the id between backquotes. */
  function NewUserFail(id: string): (f: UserFail)
    ensures |f.message| == |UnknownUserPrefix| + |id| + 1
    ensures f.message[..|UnknownUserPrefix|] == UnknownUserPrefix
    ensures f.message[|UnknownUserPrefix|..|f.message| - 1] == id
    ensures f.message[|f.message| - 1] == '`'
  {
    UserFail(UnknownUserPrefix + id + "`")
  }

  /** Different ids give different messages: the id can be read back from the message. */
  lemma NewUserFailInjective(a: string, b: string)
    requires a != b
    ensures NewUserFail(a) != NewUserFail(b)
  {
  }
}
