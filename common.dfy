/** Vocabulary shared by the API handlers and the web client: optional values,
    keys of a JSON request body, numbers as JavaScript's Number() yields them,
    and the failures a handler answers with. */
module Common {

  datatype Option<+T> = None | Some(value: T) {
    function GetOr(default: T): T {
      if Some? then value else default
    }
  }

  /** One key of a JSON object: missing, explicitly null, or carrying a value. */
  datatype Field<+T> = Absent | Null | Present(value: T)

  /** A number after Number(...) on a route parameter or a body value: a whole
      number, a finite number with a fractional part, or NaN/Infinity. */
  datatype Num = Whole(n: int) | Fraction | NotFinite

  /** The ways a request fails. A schema rejection travels as a ZodError to the
      error middleware, which answers 400 "Invalid input"; any other thrown error
      becomes 500 "Server error"; the handlers answer 400 and 404 themselves. */
  datatype Failure =
    | InvalidInput
    | BadRequest(message: string)
    | NotFound(message: string)
    | ServerError

  datatype Result<+T> = Ok(value: T) | Err(failure: Failure)

  /** The HTTP status code of a failed request. */
  function StatusCode(f: Failure): (code: int)
    ensures code == 400 <==> f.InvalidInput? || f.BadRequest?
    ensures code == 404 <==> f.NotFound?
    ensures code == 500 <==> f.ServerError?
  {
    match f
    case InvalidInput => 400
    case BadRequest(_) => 400
    case NotFound(_) => 404
    case ServerError => 500
  }
}
