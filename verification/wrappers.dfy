/** Optional values (Go's nil-able pointers and slices) and results (Go's value/error pairs). */
module Wrappers {
  datatype Option<+T> = None | Some(value: T)

  datatype Result<+T, +E> = Success(value: T) | Failure(error: E)
}
