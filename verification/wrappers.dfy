/** Failure-aware result types shared by every module of the model. */
module Wrappers {

  /** An optional value; `None` stands for JavaScript's `null`/`undefined`/`NaN` where a value may be absent. */
  datatype Option<+T> = None | Some(value: T)

  /** Either a value, or the error that the modelled code would throw or report instead. */
  datatype Result<+T, +E> = Success(value: T) | Failure(error: E) {
    predicate IsFailure() { Failure? }

    function PropagateFailure<U>(): Result<U, E>
      requires Failure?
    {
      Failure(error)
    }

    function Extract(): T
      requires Success?
    {
      value
    }
  }
}
