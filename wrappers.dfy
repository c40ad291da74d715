/** The plain `Option` and `Result` datatypes used across the model. */
module Wrappers {

  /** A value that may be missing; stands for TypeScript's `T | undefined`. */
  datatype Option<+T> = None | Some(value: T)

  /** The outcome of an operation that either returns a value or raises an error. */
  datatype Result<+R, +E> = Success(value: R) | Failure(error: E)
}
