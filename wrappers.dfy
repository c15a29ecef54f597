/** Option and Result, used for values a computation may not produce and for
    the exceptions the dashboard code raises. */
module Wrappers {
  datatype Option<+T> = None | Some(value: T)

  datatype Result<+T, +E> = Ok(value: T) | Err(error: E)
}
