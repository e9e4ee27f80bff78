/** Option, Result and Outcome values for the error paths of the model. */
module Wrappers {

  datatype Option<+T> = None | Some(value: T)

  /** The value of an operation that may throw; `Failure` carries the exception. */
  datatype Result<+R, +E> = Success(value: R) | Failure(error: E)

  /** The outcome of a `void` operation that may throw. */
  datatype Outcome<+E> = Pass | Fail(error: E)
}
