/** Optional values and success/failure results shared by every module. */
module Wrappers {

  /** A value that may be absent (Python `None`, JavaScript `null`). */
  datatype Option<+T> = None | Some(value: T)

  /** The outcome of an operation that can fail with an error of type `E`. */
  datatype Result<+T, +E> = Success(value: T) | Failure(error: E)
}
