/** Failure-compatible wrappers: the model's stand-ins for a missing file, a
    thrown exception and "the call completed normally". */
module Wrappers {

  datatype Option<+T> = None | Some(value: T)

  /** Either a value or the exception that replaced it. Usable with `:-`. */
  datatype Result<+T, +E> = Ok(value: T) | Err(error: E) {

    predicate IsFailure() {
      Err?
    }

    function PropagateFailure<U>(): Result<U, E>
      requires Err?
    {
      Err(error)
    }

    function Extract(): T
      requires Ok?
    {
      value
    }
  }

  /** A call that returns nothing: it either completes or throws. */
  datatype Outcome<+E> = Pass | Fail(error: E)
}
