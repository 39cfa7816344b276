/** Failure-compatible wrappers used throughout the model: `Option` for the
    source's nullable values and `Result` for operations that either produce a
    value or end with an error (an exception or an error response). */
module Wrappers {

  datatype Option<+T> = None | Some(value: T) {
    function GetOr(default: T): T {
      match this
      case Some(v) => v
      case None => default
    }
  }

  datatype Result<+T, +E> = Ok(value: T) | Err(error: E)

  /** The outcome of a guard that either lets the caller continue or stops it
      with an error; the source's `void` methods that may throw. */
  datatype Outcome<+E> = Pass | Fail(error: E)
}
