/** Option, Result and Outcome: the shapes in which store calls and service
    operations report a value or an error (Go's `(T, error)` and `error` returns). */
module Wrappers {

  datatype Option<+T> = None | Some(value: T)

  datatype Result<+R, +E> = Success(value: R) | Failure(error: E)

  /** The result of a call that returns only an `error`: nil (Pass) or an error. */
  datatype Outcome<+E> = Pass | Fail(error: E)
}
