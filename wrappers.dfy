/** Option and Result, the shapes in which the model states "null", "undefined" and "throws". */
module Wrappers {

  datatype Option<+T> = None | Some(value: T)

  datatype Result<+T, +E> = Ok(value: T) | Err(error: E)
}
