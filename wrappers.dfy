/** Option and Result, the two failure-carrying datatypes the model uses. */
module Wrappers {

  /** A value that may be absent (Python's `None`). */
  datatype Option<+T> = None | Some(value: T)

  /** The outcome of a request handler: a response body or an error. */
  datatype Result<+T, +E> = Ok(value: T) | Err(error: E)
}
