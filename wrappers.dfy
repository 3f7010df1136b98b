/** Option and Result, the two failure-carrying wrappers the model uses for
    Go's `(value, ok)` and `(value, err)` pairs. */
module Wrappers {

  datatype Option<+T> = None | Some(value: T)

  datatype Result<+T, +E> = Ok(value: T) | Err(error: E)
}
