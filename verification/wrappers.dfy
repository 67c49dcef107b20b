/** Failure-compatible wrappers used throughout the model: a Java `null`-or-value
    becomes an `Option`, and a call that either returns or throws becomes a `Result`. */
module Wrappers {

  /** A value that may be absent (Java `null`). */
  datatype Option<+T> = None | Some(value: T)

  /** Either the value a call returned or the exception it threw. */
  datatype Result<+T, +E> = Success(value: T) | Failure(error: E)
}
