/** Optional values and results with an error, as used across the model. */
module Wrappers {

  datatype Option<+T> = None | Some(value: T)

  datatype Result<+T, +E> = Success(value: T) | Failure(error: E)

  /** The outcome of an operation that changes state in place and may raise. */
  datatype Outcome<+E> = Pass | Fail(error: E)
}
