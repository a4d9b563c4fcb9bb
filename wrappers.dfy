/** Option, the value-or-nothing type used for Go's nil interfaces and maps,
    and Result, a value or the error a Go function returns beside it. */
module Wrappers {
  datatype Option<+T> = None | Some(value: T)

  datatype Result<+T, +E> = Success(value: T) | Failure(error: E)
}
