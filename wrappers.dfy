/** Optional values and the outcome of an operation that can fail with a message. */
module Wrappers {

  /** `null` / `undefined` in the source become `None`. */
  datatype Option<+T> = None | Some(value: T) {
    function GetOr(default: T): T {
      match this
      case Some(v) => v
      case None => default
    }
  }

  /** A value, or the message of the `Error` the source throws. */
  datatype Result<+R> = Ok(value: R) | Err(message: string)

  /** Completion of an operation with no value: it returns, or it throws `Error(message)`. */
  datatype Outcome = Pass | Fail(message: string)
}
