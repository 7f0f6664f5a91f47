/** Option and Result, the failure-carrying values used throughout the model. */
module Wrappers {

  /** A value that may be absent: TypeScript's `null`/`undefined` or an optional field. */
  datatype Option<+T> = None | Some(value: T) {
    function GetOr(default: T): T {
      match this
      case Some(v) => v
      case None => default
    }
  }

  /** The outcome of an asynchronous call that either resolves or throws. */
  datatype Result<+R, +E> = Success(value: R) | Failure(error: E)
}
