/** Optional values and success-or-failure results, used for Python's `None`
    and for the error paths of the handlers. */
module Wrappers {

  /** A value that may be absent; `None` plays the role of Python's `None`. */
  datatype Option<+T> = None | Some(value: T) {

    /** The carried value, or `default` when absent (Python's `d.get(k, default)`). */
    function GetOr(default: T): T {
      match this
      case Some(v) => v
      case None => default
    }
  }

  /** Either a successful value or an error. */
  datatype Result<+T, +E> = Success(value: T) | Failure(error: E)
}
