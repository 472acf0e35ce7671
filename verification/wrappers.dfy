/** The Option and Result datatypes used throughout the model. */
module Wrappers {

  /** A value that may be absent: JavaScript's `undefined`/`null` become `None`. */
  datatype Option<+T> = None | Some(value: T)

  /** The result of a whole run: either its value or the exception that aborted it. */
  datatype Result<+T, +E> = Success(value: T) | Failure(error: E)
}
