/** Failure-carrying wrappers shared by the calculator and the utilities. */
module Wrappers {

  /** A value that may be absent (Python's `None`). */
  datatype Option<T> = None | Some(value: T)

  /** Either a value or the error that a Python `raise` would have produced. */
  datatype Result<T, E> = Ok(value: T) | Err(error: E)
}
