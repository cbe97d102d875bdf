/** Failure-compatible result types shared by every module of the model. */
module Wrappers {

  datatype Option<+T> = None | Some(value: T)

  /** A computation that either yields a value or raises an error (a thrown exception in the source). */
  datatype Result<+T, +E> = Success(value: T) | Failure(error: E)

  /** A computation run only for its effect, which may raise an error. */
  datatype Outcome<+E> = Pass | Fail(error: E)
}
