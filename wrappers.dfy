/** Failure-compatible wrappers used for the library's exceptions and null results. */
module Wrappers {

  /** A value that may be missing (a C# `null` result). */
  datatype Option<+T> = None | Some(value: T)

  /** The outcome of an operation that returns nothing but may throw. */
  datatype Outcome<+E> = Pass | Fail(error: E)

  /** The outcome of an operation that returns a value or throws. */
  datatype Result<+T, +E> = Success(value: T) | Failure(error: E)
}
