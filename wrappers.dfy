/** Optional values and results with an error case, shared by every module. */
module Wrappers {

  /** A value that may be missing: Python's `None`, an undefined document path. */
  datatype Option<+T> = None | Some(value: T) {

    /** The value if present, otherwise the given default. */
    function GetOr(default: T): T {
      match this
      case Some(v) => v
      case None => default
    }
  }

  /** The outcome of an operation that can be refused with an error. */
  datatype Result<+R, +E> = Success(value: R) | Failure(error: E)
}
