/** Option and Result, the two failure-carrying values the model uses for Go's
    nil-able values and its `(value, error)` returns. */
module Wrappers {

  datatype Option<+T> = None | Some(value: T)

  datatype Result<+R, +E> = Success(value: R) | Failure(error: E)
}
