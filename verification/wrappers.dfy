/** Failure-compatible wrappers shared by every module of the model.
    `Option` stands for a Go pointer or interface that may be nil; `Result`
    stands for a computation that either returns a value or panics / returns a
    non-nil error, carrying the error text. */
module Wrappers {

  datatype Option<+T> = None | Some(value: T) {
    function GetOr(default: T): T {
      match this
      case Some(v) => v
      case None => default
    }
  }

  datatype Result<+T> = Ok(value: T) | Fail(error: string) {
    predicate IsFailure() {
      Fail?
    }

    function PropagateFailure<U>(): Result<U>
      requires Fail?
    {
      Fail(error)
    }

    function Extract(): T
      requires Ok?
    {
      value
    }
  }
}
