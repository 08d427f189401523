/** Option and Result values used throughout the model. */
module Wrappers {

  datatype Option<+T> = None | Some(value: T)

  /** The outcome of an operation that may raise: a value, or the text of the exception. */
  datatype Result<+T, +E> = Success(value: T) | Failure(error: E)
}
