/** Failure-carrying return types used in place of the source's exceptions. */
module Wrappers {

  datatype Option<+T> = None | Some(value: T)

  datatype Result<+R, +E> = Success(value: R) | Failure(error: E)

  /** A success/failure outcome for operations that return nothing on success. */
  datatype Outcome<+E> = Pass | Fail(error: E)
}
