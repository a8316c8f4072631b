/** Optional values and success-or-error results shared by the whole model. */
module Wrappers {

  /** A value that may be absent (a Mongo field that is unset, a query parameter not sent). */
  datatype Option<+T> = None | Some(value: T) {

    /** The value, or `default` when absent. */
    function GetOr(default: T): T {
      match this
      case Some(v) => v
      case None => default
    }
  }

  /** The outcome of a handler that returns a value or fails with an error. */
  datatype Result<+R, +E> = Success(value: R) | Failure(error: E)

  /** The outcome of a handler that returns nothing beyond success. */
  datatype Outcome<+E> = Pass | Fail(error: E)
}
