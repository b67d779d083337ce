/** Failure-carrying wrappers shared by every module of the model. */
module Wrappers {

  /** A value that may be absent (JavaScript `undefined`/`null` on the way in). */
  datatype Option<+T> = None | Some(value: T)

  /** The outcome of an operation that either yields a value or throws. */
  datatype Result<+R, +E> = Ok(value: R) | Err(error: E)

  /** The outcome of an operation that yields nothing on success. */
  datatype Outcome<+E> = Pass | Fail(error: E)
}
