/** Result types shared by the model. */
module Wrappers {

  /** A value that may be absent: Python's `None`, a missing row or a missing file. */
  datatype Option<+T> = None | Some(value: T)

  /** A returned value or the error that was raised instead. */
  datatype Result<+T, +E> = Ok(value: T) | Err(error: E)
}
