/** The outcome of an operation that can fail. */
module Wrappers {

  datatype Result<+T, +E> = Ok(value: T) | Err(error: E)
}
