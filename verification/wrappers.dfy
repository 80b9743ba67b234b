/** Failure-carrying datatypes shared by the modules of the player model. */
module Wrappers {

  /** A value that may be absent: JavaScript's `null`/`undefined`, or NaN for numbers. */
  datatype Option<+T> = None | Some(value: T)

  /** The outcome of an operation that may throw: a value, or the error it raised. */
  datatype Result<+R, +E> = Success(value: R) | Failure(error: E)
}
