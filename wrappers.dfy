/** Failure-carrying result types shared by the five programs' models. */
module Wrappers {

  /** A value that may be absent (C#'s `null` / `default`). */
  datatype Option<+T> = None | Some(value: T)

  /** The value of an operation that either returns or throws one of the source's exceptions. */
  datatype Result<+R, +E> = Success(value: R) | Failure(error: E)

  /** The outcome of a `void` operation that either completes or throws. */
  datatype Outcome<+E> = Pass | Fail(error: E)
}
