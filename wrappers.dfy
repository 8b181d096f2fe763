/** Option and Result, the two failure-carrying shapes the model uses. */
module Wrappers {

  /** A value that may be absent (Python's None). */
  datatype Option<+T> = None | Some(value: T)

  /** Either a success value or an error value. */
  datatype Result<+T, +E> = Ok(value: T) | Err(error: E)
}
