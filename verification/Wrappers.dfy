/** Failure-compatible datatypes shared by every module. */
module Wrappers {

  datatype Option<+T> = None | Some(value: T)

  /** A value, or the error code the API would answer with. */
  datatype Result<+T, +E> = Ok(value: T) | Err(error: E) {
    predicate IsFailure() {
      Err?
    }

    function PropagateFailure<U>(): Result<U, E>
      requires Err?
    {
      Err(error)
    }

    function Extract(): T
      requires Ok?
    {
      value
    }
  }

  /** The outcome of one check: `:- Need(condition, error)` leaves with the error. */
  function Need<E>(condition: bool, error: E): (r: Result<(), E>)
    ensures r.Ok? <==> condition
  {
    if condition then Ok(()) else Err(error)
  }
}
