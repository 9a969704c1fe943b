/** Option and Result, shared by both programs' models. */
module Wrappers {

  /** Python's `None` or a value. */
  datatype Option<+T> = None | Some(value: T)

  /** A value, or the error a Python function would raise. */
  datatype Result<+T, +E> = Ok(value: T) | Err(error: E)
}
