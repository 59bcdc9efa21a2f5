/** Optional values and success-or-error results used throughout the model. */
module Wrappers {

  /** A value that may be absent: JavaScript's `undefined`/`null`. */
  datatype Option<+T> = None | Some(value: T)

  /** The outcome of an operation that can throw: its value or the error it raises. */
  datatype Result<+T, +E> = Success(value: T) | Failure(error: E)
}
