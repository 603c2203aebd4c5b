/** Option and Result types shared by the handlers and the configuration lookup. */
module Wrappers {

  datatype Option<+T> = None | Some(value: T)

  /** A value or the error the source code throws instead of returning one. */
  datatype Result<+R, +E> = Ok(value: R) | Err(error: E)
}
