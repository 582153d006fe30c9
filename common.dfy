/** Shared vocabulary of the blog domain: optional values, the error results
    that stand for the exceptions the services throw, and the user account. */
module Common {

  /** A value that may be absent (PHP's null). */
  datatype Option<+T> = None | Some(value: T) {

    /** PHP's `$x ?? $default`. */
    function GetOr(default: T): T {
      match this
      case Some(v) => v
      case None => default
    }
  }

  /** An error that ends a request: the HTTP status it is reported with and its message. */
  datatype HttpError = HttpError(status: int, message: string)

  /** The outcome of an operation that can throw. */
  datatype Result<+T> = Ok(value: T) | Err(error: HttpError)

  /** `HttpException(422, message)`, the error every status guard raises. */
  function Unprocessable(message: string): HttpError {
    HttpError(422, message)
  }

  /** The user account as the core sees it: its key, display name and e-mail address. */
  datatype User = User(id: int, name: string, email: string)

  /** PHP's `empty()` applied to a string: true for "" and also for "0". */
  predicate PhpEmpty(s: string) {
    s == "" || s == "0"
  }
}
