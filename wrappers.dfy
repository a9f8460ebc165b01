/** Failure-carrying wrappers shared by every module of the model. */
module Wrappers {

  /** A value that may be absent: a missing table cell, a NaN, a column the table lacks. */
  datatype Option<+T> = None | Some(value: T)

  /** The outcome of an operation that can raise: `Failure` carries the exception's text. */
  datatype Result<+T, +E> = Success(value: T) | Failure(error: E)
}
