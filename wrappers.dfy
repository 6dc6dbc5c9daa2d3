/** Optional values and results with an error, as the model's failure paths need them. */
module Wrappers {

  /** A value that may be absent (JavaScript's `null`/`undefined` where the source tests for them). */
  datatype Option<+T> = None | Some(value: T)

  /** A computation that either yields a value or fails with an error (the source throws instead). */
  datatype Result<+T, +E> = Ok(value: T) | Err(error: E)
}
