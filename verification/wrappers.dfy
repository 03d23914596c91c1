/** Failure-carrying return types shared by the generator's operations. */
module Wrappers {

  /** A value that may be absent. */
  datatype Option<+T> = None | Some(value: T)

  /** Either the value an operation produced or the error it raised. */
  datatype Result<+R, +E> = Success(value: R) | Failure(error: E)
}
