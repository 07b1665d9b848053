/** Option and Result values used where the Python code raises or returns nothing. */
module Wrappers {

  datatype Option<+T> = None | Some(value: T)

  /** The outcome of an operation that may raise: a value, or the exception raised. */
  datatype Result<+T, +E> = Ok(value: T) | Err(error: E)
}
