/** Option and Result, the shapes Kotlin's nullable types and thrown exceptions take in this model. */
module Wrappers {

  /** A Kotlin nullable value: `None` stands for `null`. */
  datatype Option<+T> = None | Some(value: T) {
    function GetOr(default: T): T {
      match this
      case Some(v) => v
      case None => default
    }
  }

  /** The outcome of a call that either returns a value or throws (or, for retry, fails). */
  datatype Result<+R, +E> = Success(value: R) | Failure(error: E)
}
