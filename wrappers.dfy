/** Failure-carrying results shared by the readers. */
module Wrappers {

  datatype Option<+T> = None | Some(value: T)

  /** The value of a computation, or the exception that ended it. */
  datatype Result<+T, +E> = Ok(value: T) | Err(error: E)
}
