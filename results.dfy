/** Outcomes shared by every handler of the API: a value, an HTTP error the
    code raises on purpose, or an exception nobody catches (which the web
    framework turns into a 500 Internal Server Error). */
module Results {

  datatype Option<+T> = None | Some(value: T)

  /** Why a request did not produce a value. */
  datatype Failure =
    | Fail(status: int, detail: string)  // an HTTPException, or an error JSONResponse
    | Crash(reason: string)              // an unhandled Python exception
  {
    /** The HTTP status the client sees. */
    function Status(): int {
      if Fail? then status else INTERNAL_SERVER_ERROR
    }
  }

  datatype Result<+T> = Ok(value: T) | Err(failure: Failure) {
    predicate IsFailure() { Err? }

    function PropagateFailure<U>(): Result<U>
      requires Err?
    {
      Err(failure)
    }

    function Extract(): T
      requires Ok?
    {
      value
    }
  }

  const OK := 200
  const BAD_REQUEST := 400
  const UNAUTHORIZED := 401
  const FORBIDDEN := 403
  const NOT_FOUND := 404
  const UNPROCESSABLE := 422
  const INTERNAL_SERVER_ERROR := 500

  /** The body-validation error the framework answers before a handler runs. */
  const VALIDATION_FAILED := Fail(UNPROCESSABLE, "request validation error")
}
