/** Optional values and results with an error, shared by every module of the model. */
module Wrappers {

  /** A value that may be absent: JavaScript's `undefined` where a field or header is missing. */
  datatype Option<+T> = None | Some(value: T)

  /** The outcome of an operation that either yields a value or rejects with a reason. */
  datatype Result<+T, +E> = Ok(value: T) | Err(error: E)
}
