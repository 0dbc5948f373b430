/** Option, the stand-in for Go's nil-able values and for "ok" second results,
    and Result, the stand-in for a Go `(value, error)` pair. */
module Wrappers {

  datatype Option<+T> = None | Some(value: T)

  datatype Result<+T, +E> = Success(value: T) | Failure(error: E)
}
