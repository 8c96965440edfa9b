/** Shared shapes: an optional request field and an HTTP-style reply. */
module Common {

  /** A request field that may be absent (JavaScript `undefined`). */
  datatype Option<T> = None | Some(value: T) {
    /** The destructuring default `{ x = d } = body`: `d` only when the field is absent. */
    function GetOr(default: T): T {
      match this
      case Some(v) => v
      case None => default
    }
  }

  /** What a handler sends back: a JSON body on success, or an error status. */
  datatype Response<T> = Success(value: T) | Failure(status: int)

  const BadRequest: int := 400
  const Unauthorized: int := 401
  const Forbidden: int := 403
  const NotFound: int := 404
  const ServerError: int := 500
}
