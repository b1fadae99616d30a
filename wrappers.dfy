/** Option and Result, used for the nullable values and the error paths of the model. */
module Wrappers {

  /** A value that may be absent (a C# null, a missing lookup, a failed parse). */
  datatype Option<+T> = None | Some(value: T) {
    function GetOr(default: T): T {
      match this
      case Some(v) => v
      case None => default
    }
  }

  /** The outcome of an operation that either yields a value or fails with an error value. */
  datatype Result<+R, +E> = Success(value: R) | Failure(error: E)
}
