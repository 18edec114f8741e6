/** Option and Result, for the null references and the argument-null
    exceptions of the scanners. */
module Wrappers {

  /** A possibly-null reference or value. */
  datatype Option<+T> = None | Some(value: T)

  /** The outcome of an operation that may throw. */
  datatype Result<+R, +E> = Success(value: R) | Failure(error: E)
}
