/** Optional values and outcomes, shared by the codec modules. */
module Wrappers {

  /** A value that may be absent: a Java reference that may be null. */
  datatype Option<+T> = None | Some(value: T)

  /** The outcome of an operation that may throw: a value, or the error it raised. */
  datatype Result<+T, +E> = Ok(value: T) | Err(error: E)
}
