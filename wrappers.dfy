/** Option and Result, the two failure-carrying datatypes the model uses. */
module Wrappers {

  datatype Option<+T> = None | Some(value: T)

  /** Either a value or the text of the exception that prevented it. */
  datatype Result<+R, +E> = Ok(value: R) | Err(error: E)
}
