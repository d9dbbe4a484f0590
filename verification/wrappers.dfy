/** Failure-compatible wrappers: `Option` for a value that may be absent (a
    Python `None`), `Result` for an operation that may stop with a fault (a
    Python assertion or exception that ends the call). */
module Wrappers {

  datatype Option<+T> = None | Some(value: T)

  datatype Result<+R, +E> = Success(value: R) | Failure(error: E) {

    predicate IsFailure() {
      Failure?
    }

    function PropagateFailure<U>(): Result<U, E>
      requires Failure?
    {
      Failure(error)
    }

    function Extract(): R
      requires Success?
    {
      value
    }
  }
}
