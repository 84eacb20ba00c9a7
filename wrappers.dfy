/** Option and Result, the two failure-carrying values the rest of the model uses
    in place of Python's `None` and raised exceptions. */
module Wrappers {

  datatype Option<+T> = None | Some(value: T)

  /** `Err` carries the text of the exception that would have been raised. */
  datatype Result<+T, +E> = Ok(value: T) | Err(error: E)
}
