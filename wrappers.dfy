/** Failure-carrying values used across the model. */
module Wrappers {

  /** A value that may be absent: JavaScript's `null`/`undefined`. */
  datatype Option<+T> = None | Some(value: T)

  /** The result of a step that may throw: `Fail` carries the error message. */
  datatype Outcome = Pass | Fail(message: string)
}
