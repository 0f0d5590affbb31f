/** Failure-compatible wrappers used throughout the model. */
module Wrappers {

  datatype Option<+T> = None | Some(value: T)

  /** The outcome of an operation that the source aborts on (sys.exit or an uncaught exception). */
  datatype Result<+T, +E> = Success(value: T) | Failure(error: E)
}
