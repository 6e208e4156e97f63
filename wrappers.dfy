/** Option and Result, the two failure-carrying wrappers the model uses. */
module Wrappers {

  /** A value that may be absent. */
  datatype Option<+T> = None | Some(value: T)

  /** The outcome of an operation that can raise: its value, or the error it raises. */
  datatype Result<+T, +E> = Ok(value: T) | Err(error: E)
}
