/** Option and Result values, used wherever the Go code returns nil,
    a (value, ok) pair or a (value, error) pair. */
module Wrappers {

  datatype Option<+T> = None | Some(value: T)

  datatype Result<+T, +E> = Success(value: T) | Failure(error: E)
}
