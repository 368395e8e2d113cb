/** Optional values and error-carrying results shared by the modules of the model. */
module Wrappers {

  /** Python's `Optional[T]`: `None` or a value. */
  datatype Option<+T> = None | Some(value: T)

  /** A value, or the error an operation raised instead of returning one. */
  datatype Result<+R, +E> = Ok(value: R) | Err(error: E)
}
