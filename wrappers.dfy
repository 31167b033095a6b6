/** Option, Result and Outcome: the failure-carrying values used in place of
    PHP's null and exceptions. */
module Wrappers {

  datatype Option<+T> = None | Some(value: T)

  /** A value, or the fault that replaced it. */
  datatype Result<+R, +E> = Success(value: R) | Failure(error: E)

  /** Success without a value, or a fault. */
  datatype Outcome<+E> = Pass | Fail(error: E)
}
