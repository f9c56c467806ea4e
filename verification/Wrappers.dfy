/** Option and Result, shared by all modules. */
module Wrappers {

  datatype Option<+T> = None | Some(value: T)

  /** A handler result: a value, or one of the error codes of `at.h`. */
  datatype Result<+T> = Ok(value: T) | Err(code: int)
}
