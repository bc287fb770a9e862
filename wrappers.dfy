/** The Option and Result types shared by the other modules. */
module Wrappers {

  /** A value that may be absent: Python's `None` or a present value. */
  datatype Option<T> = None | Some(value: T)

  /** The outcome of an operation that may fail with an error value. */
  datatype Result<T, E> = Ok(value: T) | Err(error: E)
}
