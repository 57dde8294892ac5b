/** Option and Result, standing in for Python's exceptions: `None` / `Err` is
    "this call raised". */
module Wrappers {

  datatype Option<+T> = None | Some(value: T)

  datatype Result<+T, +E> = Ok(value: T) | Err(error: E)
}
