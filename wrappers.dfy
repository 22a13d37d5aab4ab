/** Option and Result types shared by the model. */
module Wrappers {

  /** A value that may be absent: a missing field, a failed fetch, an unset setting. */
  datatype Option<+T> = None | Some(value: T)

  /** The outcome of an operation that can fail with an error value. */
  datatype Result<+T, +E> = Success(value: T) | Failure(error: E)
}
