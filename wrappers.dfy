/** The Option and Result datatypes shared by the rest of the model. */
module Wrappers {

  /** A value that may be absent: Python's `None` versus a present value. */
  datatype Option<+T> = None | Some(value: T)

  /** The outcome of an operation that may raise: a value, or the exception it raised. */
  datatype Result<+T, +E> = Ok(value: T) | Err(error: E)
}
