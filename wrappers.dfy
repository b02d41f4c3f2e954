/** Failure-carrying values used in place of `null` and thrown errors. */
module Wrappers {

  /** A value that may be absent (the source's `T | null`). */
  datatype Option<+T> = None | Some(value: T)

  /** The value of an operation that returns or throws. */
  datatype Result<+T, +E> = Success(value: T) | Failure(error: E)

  /** The outcome of an operation that returns nothing or throws. */
  datatype Outcome<+E> = Pass | Fail(error: E)
}
