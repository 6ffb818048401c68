/** Failure-compatible wrappers used for lookups that may miss and for
    operations that may raise an HTTP error. */
module Wrappers {

  datatype Option<+T> = None | Some(value: T)

  datatype Result<+T, +E> = Ok(value: T) | Err(error: E)
}
