/** Stock optional and error-carrying values shared by the other modules. */
module Wrappers {

  /** A value that may be absent (the source's `null`/`undefined`). */
  datatype Option<+T> = None | Some(value: T)

  /** The outcome of an operation that can throw (`Failure` carries the message). */
  datatype Result<+T, +E> = Success(value: T) | Failure(error: E)
}
