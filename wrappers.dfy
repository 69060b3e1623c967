/** Failure-compatible wrappers used by the model: optional (nullable) values
    and results that either carry a value or an error. */
module Wrappers {

  /** A nullable value: `None` stands for SQL NULL / pandas NaN. */
  datatype Option<+T> = None | Some(value: T)

  /** The outcome of a step that returns a value or raises an error. */
  datatype Result<+R, +E> = Ok(value: R) | Err(error: E) {
    predicate IsFailure() { Err? }

    function PropagateFailure<U>(): Result<U, E>
      requires Err?
    {
      Err(error)
    }

    function Extract(): R
      requires Ok?
    {
      value
    }
  }

  /** The outcome of a step that returns nothing or raises an error. */
  datatype Outcome<+E> = Pass | Fail(error: E) {
    predicate IsFailure() { Fail? }

    function PropagateFailure(): Outcome<E>
      requires Fail?
    {
      this
    }
  }
}
