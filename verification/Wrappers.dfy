/** Failure-compatible result types shared by every component. */
module Wrappers {

  datatype Option<+T> = None | Some(value: T)

  /** `Ok` is a normal return, `Err` a raised exception. */
  datatype Result<+T, +E> = Ok(value: T) | Err(error: E)
}
