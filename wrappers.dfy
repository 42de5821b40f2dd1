/** Failure-carrying results shared by every module of the model. */
module Wrappers {

  datatype Option<+T> = None | Some(value: T)

  /** A value, or the error the JavaScript code would have thrown instead. */
  datatype Result<+T, +E> = Ok(value: T) | Err(error: E)

  /** A statement that either completes or throws. */
  datatype Outcome<+E> = Pass | Fail(error: E)
}
