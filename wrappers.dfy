/** Option and Result, the two failure-carrying datatypes the model uses. */
module Wrappers {

  datatype Option<+T> = None | Some(value: T)

  /** The value of a Python call: either what it returned or the exception it raised. */
  datatype Result<+T, +E> = Ok(value: T) | Err(error: E)
}
