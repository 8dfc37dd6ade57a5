/** Option and Result, used for the error paths of the model. */
module Wrappers {

  datatype Option<+T> = None | Some(value: T)

  /** `Ok` carries a value; `Err` carries the error the source raises instead. */
  datatype Result<+R, +E> = Ok(value: R) | Err(error: E)
}
