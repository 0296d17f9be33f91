/** Option and Result types shared by the model. */
module Wrappers {

  /** A value that may be absent, as a key-value `get` that returns null. */
  datatype Option<+T> = None | Some(value: T)

  /** The outcome of an operation that can throw, carrying the error message. */
  datatype Result<+R, +E> = Success(value: R) | Failure(error: E)
}
