/** Optional values and results with an error, as used across the model. */
module Wrappers {

  /** A value that may be absent (a JavaScript `undefined` field, a missing cache entry). */
  datatype Option<+T> = None | Some(value: T)

  /** The outcome of an operation that either returns a value or fails with an error. */
  datatype Result<+T, +E> = Ok(value: T) | Err(error: E)
}
