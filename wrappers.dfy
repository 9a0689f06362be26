/** Failure-carrying results used across the model. */
module Wrappers {

  /** A value that may be absent, as returned by a substring search. */
  datatype Option<+T> = None | Some(value: T)

  /** Either a value or the text of the exception that was raised instead. */
  datatype Result<+T, +E> = Success(value: T) | Failure(error: E)
}
