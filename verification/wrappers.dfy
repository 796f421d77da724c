/** Failure-carrying values shared by the modules of the model: a Go `nil`
    (a missing user, an unset `error`) becomes `None`, and a Go
    `(value, error)` pair becomes a `Result`. */
module Wrappers {

  datatype Option<+T> = None | Some(value: T)

  datatype Result<+T, +E> = Success(value: T) | Failure(error: E)
}
