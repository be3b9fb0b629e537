/** Option and Result datatypes used across the model. */
module Wrappers {

  /** A value that may be absent (Python's `None`). */
  datatype Option<+T> = None | Some(value: T)

  /** A value or an error that ends the run. */
  datatype Result<+T, +E> = Ok(value: T) | Err(error: E)
}
