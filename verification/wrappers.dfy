/** Failure-carrying result types shared by the whole model. */
module Wrappers {

  /** A value that may be missing (JavaScript `null`/`undefined`, or a call that threw). */
  datatype Option<+T> = None | Some(value: T)

  /** The outcome of an operation that only succeeds or fails with an error message. */
  datatype Outcome<+E> = Pass | Fail(error: E)

  /** The outcome of an operation that returns a value or fails with an error message. */
  datatype Result<+T, +E> = Ok(value: T) | Err(error: E)
}
