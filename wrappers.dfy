/** Option and Result, the two failure-carrying datatypes the model uses. */
module Wrappers {

  datatype Option<+T> = None | Some(value: T)

  /** The C++ compiler throws a string on failure; here a failure is an `Err` value. */
  datatype Result<+T, +E> = Ok(value: T) | Err(error: E)
}
