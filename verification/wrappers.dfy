/** Optional values and error-carrying results, used wherever the dashboard
    works with a JavaScript `null`/missing value or a Python exception. */
module Wrappers {

  /** A value that may be absent (a missing JSON key, a `null`). */
  datatype Option<+T> = None | Some(value: T) {

    /** The wrapped value, or `default` when absent. */
    function GetOr(default: T): T {
      match this
      case Some(v) => v
      case None => default
    }
  }

  /** Either a value or the error that replaced it. */
  datatype Result<+R, +E> = Success(value: R) | Failure(error: E)
}
