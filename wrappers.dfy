/** Failure-carrying wrappers used for the source's nullable returns and exceptions. */
module Wrappers {

  /** A value that may be absent (Java `null` / `Optional.empty()`). */
  datatype Option<+T> = None | Some(value: T)

  /** The outcome of an operation that either returns a value or throws. */
  datatype Result<+R, +E> = Success(value: R) | Failure(error: E)

  /** The outcome of a `void` operation that may throw. */
  datatype Outcome<+E> = Pass | Fail(error: E)
}
