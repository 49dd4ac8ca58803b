/** Small failure-carrying datatypes shared by the other modules. */
module Wrappers {

  /** A value that may be missing (Python's `None`). */
  datatype Option<+T> = None | Some(value: T)

  /** The value of an operation that either succeeds or raises a validation error. */
  datatype Result<+R, +E> = Success(value: R) | Failure(error: E)

  /** An operation that returns nothing useful or raises a validation error. */
  datatype Outcome<+E> = Pass | Fail(error: E)
}
