/** Optional values and results with an error, shared by every module of the model. */
module Wrappers {

  /** A value that may be missing: Python's `None`, JavaScript's `null`/`undefined`. */
  datatype Option<+T> = None | Some(value: T)

  /** The outcome of an operation that can fail with a message (a raised exception, an error string). */
  datatype Result<+T> = Ok(value: T) | Err(message: string)
}
