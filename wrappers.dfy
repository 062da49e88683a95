/** Option and Result, the failure-carrying values the model uses for
    Python's `None` and for a call that either returns or raises. */
module Wrappers {

  datatype Option<+T> = None | Some(value: T)

  /** `Ok(value)` is a normal return; `Err(error)` is a raised exception. */
  datatype Result<+T, +E> = Ok(value: T) | Err(error: E)
}
