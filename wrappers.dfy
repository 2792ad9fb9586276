/** Optional values and results shared by the other modules. */
module Wrappers {

  /** A value that may be absent: JavaScript's `T | null` or an optional property. */
  datatype Option<+T> = None | Some(value: T)

  /** The outcome of an operation that either returns a value or throws. */
  datatype Result<+R, +E> = Ok(value: R) | Err(error: E)
}
