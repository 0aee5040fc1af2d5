/** Shared vocabulary of the booking API: identifiers, the authenticated
    caller, path parameters, reservation records and HTTP status codes. */
module Records {

  datatype Option<+T> = None | Some(value: T)

  /** A document identity (a MongoDB ObjectId). Identities are drawn from one
      counter for both collections, so they never collide. */
  type Id = nat

  /** The string form of a user's ObjectId, as `req.user.id` carries it. */
  type UserId = string

  /** The identity and role the authentication middleware attaches to a
      request. Only the role string "admin" grants admin rights. */
  datatype Caller = Caller(id: UserId, role: string)

  predicate IsAdmin(caller: Caller) {
    caller.role == "admin"
  }

  /** A path parameter after Mongoose has tried to cast it to an ObjectId:
      either an identity or a string that is not one (a CastError). */
  datatype IdParam = Cast(id: Id) | Uncastable

  /** A stored reservation. `start` and `end` are time-of-day strings. */
  datatype Reservation = Reservation(id: Id, user: UserId, coworking: Id, start: string, end: string)

  const OK: int := 200
  const CREATED: int := 201
  const BAD_REQUEST: int := 400
  const UNAUTHORIZED: int := 401
  const NOT_FOUND: int := 404
  const SERVER_ERROR: int := 500
}
