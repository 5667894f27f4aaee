// Option and Result, the two ways a modelled operation reports absence or failure.
module Wrappers {
  datatype Option<T> = None | Some(value: T)
  {
    predicate IsNone() { None? }
  }

  datatype Result<T, E> = Success(value: T) | Failure(error: E)
  {
    predicate IsFailure() { Failure? }

    function PropagateFailure<U>(): Result<U, E>
      requires Failure?
    {
      Failure(this.error)
    }

    function Extract(): T
      requires Success?
    {
      value
    }
  }
}
