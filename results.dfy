/** Option and Result wrappers, and the failures the contents manager can end in. */
module Results {

  datatype Option<+T> = None | Some(value: T)

  /** The ways a call can fail.
      Http is a tornado HTTPError with its status code and the path its message names
      ("" when the message names none). NotFound, BadRequest, Forbidden and Conflict are
      exceptions raised by the storage client and not caught. Crash stands for a Python
      runtime error (AttributeError, TypeError, UnicodeDecodeError) that escapes. */
  datatype Failure =
    | Http(code: int, path: string)
    | NotFound
    | BadRequest
    | Forbidden
    | Conflict
    | Crash

  datatype Result<+T> = Ok(value: T) | Err(error: Failure)
}
