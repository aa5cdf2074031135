/** Request outcomes shared by every handler: an optional value (a JSON
    field that may be absent or null), a result that is either the handler's
    value or the error the process-wide error layer renders, and the
    authenticated caller that the `protect` middleware attaches. */
module Http {

  /** A value that may be missing: `None` stands for an absent or null
      body/query field. */
  datatype Option<+T> = None | Some(value: T) {
    /** The `??` fallback: the value when present, the default otherwise. */
    function GetOr(default: T): T {
      match this
      case Some(v) => v
      case None => default
    }
  }

  /** The errors a handler throws, by HTTP meaning. */
  datatype Failure =
    | NotFound(message: string)       // 404
    | Forbidden(message: string)      // 403
    | BadRequest(message: string)     // 400
    | Invalid(message: string)        // the store's schema validation refused the document
    | ServerError(message: string)    // an exception the handler did not anticipate
    | UploadError(message: string)    // the upload's file filter refused the file
    | UnexpectedField(field: string)  // the multipart parser met a file it was not told to expect

  datatype Result<+T> = Ok(value: T) | Err(failure: Failure) {
    predicate IsFailure() { Err? }

    function PropagateFailure<U>(): Result<U>
      requires Err?
    {
      Err(failure)
    }

    function Extract(): T
      requires Ok?
    {
      value
    }
  }

  type UserId = nat

  /** The user that `protect` loads from the token (`req.user`). */
  datatype Caller = Caller(id: UserId, name: string, email: string, isAdmin: bool)
}
