/** Option and Result, the two failure-carrying datatypes the model uses. */
module Wrappers {

  datatype Option<+T> = None | Some(value: T)

  /** A computation that either yields a value or fails with a message
      (the model of a raised `ValueError`). */
  datatype Result<+T, +E> = Success(value: T) | Failure(error: E)
}
