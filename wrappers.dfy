/** Optional values and results with an error, as used by the file objects and the manager. */
module Wrappers {

  /** Guava's `Optional`: absent or present. */
  datatype Option<+T> = None | Some(value: T)

  /** The outcome of an operation that may throw. */
  datatype Result<+T, +E> = Ok(value: T) | Err(error: E)
}
