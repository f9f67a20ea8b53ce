/** Option and Result, as the rest of the project uses them. */
module Wrappers {
  datatype Option<+T> = None | Some(value: T)

  datatype Result<+T, +E> = Success(value: T) | Failure(error: E) {
    predicate IsFailure() {
      Failure?
    }

    function PropagateFailure<U>(): Result<U, E>
      requires Failure?
    {
      Failure(error)
    }

    function Extract(): T
      requires Success?
    {
      value
    }
  }

  /** What stands behind `forall door: nat :: Knock(door) ==> ...` is not looked at until someone knocks. */
  ghost predicate Knock(door: nat) {
    true
  }
}
