/** Option, Result and Outcome: the error paths of the system as values. */
module Wrappers {

  datatype Option<+T> = None | Some(value: T)

  /** A value, or the error that the Python code raises instead of returning it. */
  datatype Result<+R, +E> = Success(value: R) | Failure(error: E)

  /** A call that returns nothing on success, or raises `error`. */
  datatype Outcome<+E> = Pass | Fail(error: E)
}
