/** Failure-compatible wrappers used by the checker: an optional value and a
    success-or-error result that works with Dafny's `:-` operator. */
module Wrappers {

  /** An optional value; `None` stands for Java's `null`. */
  datatype Option<+T> = None | Some(value: T)

  /** Either the value of a completed step or the error that aborted it. */
  datatype Result<+T, +E> = Ok(value: T) | Err(error: E) {

    predicate IsFailure() {
      Err?
    }

    function PropagateFailure<U>(): Result<U, E>
      requires Err?
    {
      Err(error)
    }

    function Extract(): T
      requires Ok?
    {
      value
    }
  }
}
