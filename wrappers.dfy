/** Optional values and results with an error, shared by every module. */
module Wrappers {

  /** Python's `Optional[T]` / a JavaScript value that may be `null`. */
  datatype Option<+T> = None | Some(value: T)

  /** A value or the error that replaced it. */
  datatype Result<+T, +E> = Ok(value: T) | Err(error: E)
}
