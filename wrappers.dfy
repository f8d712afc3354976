/** Optional values and error-or-value results shared by every module. */
module Wrappers {

  /** A value that may be absent (JavaScript `null`/`undefined`, Python `None`). */
  datatype Option<+T> = None | Some(value: T) {
    function GetOr(default: T): T {
      match this
      case Some(v) => v
      case None => default
    }
  }

  /** The outcome of an operation that may fail with an error message. */
  datatype Result<+T> = Ok(value: T) | Err(message: string)
}
