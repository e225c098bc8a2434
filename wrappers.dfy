/** Optional values and results with an error, as used throughout the model. */
module Wrappers {

  /** A value that may be absent: SQL NULL, a missing dictionary key, or Python `None`. */
  datatype Option<T> = None | Some(value: T) {
    /** The value, or `default` when absent (Python's `d.get(key, default)`). */
    function GetOr(default: T): T {
      match this
      case Some(v) => v
      case None => default
    }
  }

  /** A computation that either succeeds with a value or fails with an error. */
  datatype Result<T, E> = Success(value: T) | Failure(error: E)
}
