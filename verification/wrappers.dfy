/** Option and Result, the failure-compatible wrappers used throughout the model. */
module Wrappers {

  /** A value that may be absent (pandas' "no such row" / dict.get miss). */
  datatype Option<+T> = None | Some(value: T)

  /** Either a computed value or the error the code would have raised. */
  datatype Result<+R, +E> = Success(value: R) | Failure(error: E) {

    predicate IsFailure() {
      Failure?
    }

    function PropagateFailure<U>(): Result<U, E>
      requires Failure?
    {
      Failure(error)
    }

    function Extract(): R
      requires Success?
    {
      value
    }
  }
}
