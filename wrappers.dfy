/** Failure-carrying wrappers shared by every module of the model. */
module Wrappers {

  /** A value that may be absent; Python's `None` is `None` here too. */
  datatype Option<+T> = None | Some(value: T)

  /** The outcome of an operation that may raise: `Failure` stands for the exception. */
  datatype Result<+T, +E> = Success(value: T) | Failure(error: E)
}
