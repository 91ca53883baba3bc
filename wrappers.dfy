/** Optional values, results that may carry an error message, and pass/fail outcomes. */
module Wrappers {

  /** A value that may be absent (`undefined` in the source). */
  datatype Option<+T> = None | Some(value: T)

  /** The value of a call that may throw: `Err` carries the thrown error's message. */
  datatype Result<+T> = Ok(value: T) | Err(error: string)

  /** The outcome of a call that returns nothing but may throw. */
  datatype Outcome = Pass | Fail(error: string)
}
