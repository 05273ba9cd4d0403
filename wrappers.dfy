/** Failure-carrying values shared by the two components. */
module Wrappers {

  /** A value that may be absent (Python's `None`). */
  datatype Option<+T> = None | Some(value: T)

  /** A value or the error that prevented computing it (a raised exception). */
  datatype Result<+T, +E> = Ok(value: T) | Err(error: E)
}
