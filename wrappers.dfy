/** Optional values and results with an error, as the facade returns them. */
module Wrappers {

  /** A value that may be absent: an object key that is not set, or a null result. */
  datatype Option<+T> = None | Some(value: T)

  /** The outcome of an operation that may fail: a resolved or a rejected promise. */
  datatype Result<+T, +E> = Ok(value: T) | Err(error: E)
}
