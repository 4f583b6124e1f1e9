/** Option and Result, the two failure-carrying datatypes the model uses. */
module Wrappers {

  datatype Option<+T> = None | Some(value: T)

  /** The outcome of the macro: a value, or the fatal error that aborted it. */
  datatype Result<+T, +E> = Success(value: T) | Failure(error: E)
}
