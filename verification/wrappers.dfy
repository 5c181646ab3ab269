/** Failure-carrying result types shared by the other modules. */
module Wrappers {

  /** A value that may be missing: a file that cannot be opened, a character not found. */
  datatype Option<+T> = None | Some(value: T)

  /** The outcome of an operation that can fail with a reason. */
  datatype Result<+R, +E> = Success(value: R) | Failure(error: E)
}
