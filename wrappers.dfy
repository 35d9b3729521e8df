/** Option and Result, the two failure-carrying datatypes the model uses. */
module Wrappers {

  /** A value that may be absent (a null return, an undefined property). */
  datatype Option<+T> = None | Some(value: T)

  /** The outcome of an operation that may be rejected with an error. */
  datatype Result<+T, +E> = Success(value: T) | Failure(error: E)
}
