/** Option and Result, shared by the other modules. */
module Wrappers {

  /** A value that may be absent: stands for JavaScript's `undefined`. */
  datatype Option<+T> = None | Some(value: T) {

    /** Returns the value, or `default` when it is absent (JavaScript's `v || d`
        on a value that is never falsy). */
    function GetOr(default: T): T {
      match this
      case Some(v) => v
      case None => default
    }
  }

  /** The outcome of an operation that may throw. */
  datatype Result<+R, +E> = Success(value: R) | Failure(error: E)
}
