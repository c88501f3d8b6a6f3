/** Option and Result, the two failure-carrying wrappers the model uses. */
module Wrappers {

  /** A value that may be absent: an attribute the Python object has not set yet, or a field still holding `None`. */
  datatype Option<+T> = None | Some(value: T)

  /** The value of an expression, or the exception evaluating it raised. */
  datatype Result<+T, +E> = Ok(value: T) | Err(error: E)
}
