/** Option and Result values used throughout the model for Go's (value, error) pairs
    and JavaScript's optional values. */
module Wrappers {

  datatype Option<+T> = None | Some(value: T)

  /** A Go function result: either a value or an error. */
  datatype Result<+T, +E> = Ok(value: T) | Err(error: E)
}
