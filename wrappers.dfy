/** Option and Result, the two optional-value shapes the model needs. */
module Wrappers {

  /** A value that may be absent: Go's nil pointer or nil error. */
  datatype Option<+T> = None | Some(value: T)

  /** The outcome of an operation that either yields a value or fails with an error message. */
  datatype Result<+T> = Ok(value: T) | Err(error: string)
}
