/** Failure-compatible result types shared by every module of the model. */
module Wrappers {

  /** A value that may be absent (JavaScript `undefined`/`null`). */
  datatype Option<+T> = None | Some(value: T) {
    function GetOr(default: T): T {
      match this
      case Some(v) => v
      case None => default
    }
  }

  /** The outcome of an operation with no payload: a foreign call that succeeded or failed. */
  datatype Outcome<+E> = Pass | Fail(error: E)

  /** A computation that produces a value or an error. */
  datatype Result<+R, +E> = Success(value: R) | Failure(error: E)
}
