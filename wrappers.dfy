/** Option and Result, used for Python's None values and for the exceptions
    and error returns of the modelled routines. */
module Wrappers {

  datatype Option<+T> = None | Some(value: T)

  datatype Result<+R, +E> = Ok(value: R) | Err(error: E)
}
