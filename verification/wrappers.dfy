/** Failure-carrying result types shared by the model. */
module Wrappers {

  /** A value that may be absent (a PHP property that is not `isset`). */
  datatype Option<+T> = None | Some(value: T)

  /** A computed value, or the error a PHP method would have thrown instead. */
  datatype Result<+T, +E> = Success(value: T) | Failure(error: E)

  /** The outcome of an operation that returns nothing but may throw. */
  datatype Outcome<+E> = Pass | Fail(error: E)
}
