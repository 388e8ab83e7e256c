/** Failure-compatible wrappers shared by the model: absent values and error returns. */
module Wrappers {

  /** A value that may be absent (a JavaScript `null` or `undefined`). */
  datatype Option<+T> = None | Some(value: T)

  /** The outcome of an operation that can throw: a value or the error it throws. */
  datatype Result<+T, +E> = Ok(value: T) | Err(error: E)
}
