/** Values shared by every layer of the model: optional values, the clock, the
    caller of a request and the HTTP status a handler answers with. */
module Common {

  datatype Option<T> = None | Some(value: T) {
    /** The carried value, or `default` when there is none. */
    function GetOr(default: T): T {
      if Some? then value else default
    }
  }

  /** A reading of the server clock; every handler that stamps a time receives it. */
  type Time = nat

  /** The principal of a request: the session user's primary key, or nobody. */
  datatype Principal = Anonymous | Authenticated(pk: nat)

  /** The HTTP statuses the handlers answer with. */
  datatype Status = OK | Created | NoContent | BadRequest | Unauthorized | Forbidden | NotFound

  function Code(s: Status): nat {
    match s
    case OK => 200
    case Created => 201
    case NoContent => 204
    case BadRequest => 400
    case Unauthorized => 401
    case Forbidden => 403
    case NotFound => 404
  }
}
