/** Option and Result, the two failure-carrying shapes the model uses in
    place of Python's None returns and raised exceptions. */
module Wrappers {

  datatype Option<+T> = None | Some(value: T)

  /** `Err` carries the exception the Python code raises (or would raise). */
  datatype Result<+T, +E> = Ok(value: T) | Err(error: E)
}
