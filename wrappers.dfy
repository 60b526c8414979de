/** Failure-carrying values shared by the other modules. */
module Wrappers {

  /** A value that may be missing; also stands for a Python call that may raise. */
  datatype Option<+T> = None | Some(value: T)

  /** A value, or the text of the exception that replaced it. */
  datatype Result<+T, +E> = Ok(value: T) | Err(error: E)
}
