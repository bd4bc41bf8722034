/** Failure-compatible wrappers used in place of Python's None and exceptions. */
module Wrappers {

  /** A value that may be absent, like an environment variable that is unset. */
  datatype Option<+T> = None | Some(value: T)

  /** Either a successful value or a named error. */
  datatype Result<+R, +E> = Success(value: R) | Failure(error: E)
}
