/** Small shared vocabulary: optional values, results with an HTTP-style
    error, and the status codes the backend raises. */
module Common {

  datatype Option<+T> = None | Some(value: T) {
    function GetOr(default: T): T {
      match this
      case Some(v) => v
      case None => default
    }
  }

  /** An error surfaced to a REST client (FastAPI's HTTPException, or the
      422 produced by request validation, or a 500 from an uncaught
      database error). */
  datatype HttpError = HttpError(status: int, detail: string)

  datatype Result<+T> = Ok(value: T) | Err(error: HttpError)

  const BadRequest := 400
  const Unauthorized := 401
  const Forbidden := 403
  const NotFound := 404
  const Unprocessable := 422
  const InternalError := 500

  function Min(a: int, b: int): int { if a <= b then a else b }

  lemma AppendAssoc<T>(a: seq<T>, b: seq<T>, c: seq<T>)
    ensures a + b + c == a + (b + c)
  {
  }
}
