/** Option and Result types standing in for Python's optional dictionary keys
    and for exceptions that a caller catches. */
module Wrappers {

  /** A value that may be absent, as a dictionary key that `.get` does not find. */
  datatype Option<+T> = None | Some(value: T) {

    /** The value, or `default` when absent: Python's `d.get(key, default)`. */
    function GetOr(default: T): T {
      match this
      case Some(v) => v
      case None => default
    }
  }

  /** The outcome of a computation that may raise: `Err` carries the exception's message. */
  datatype Result<+T, +E> = Ok(value: T) | Err(error: E) {

    predicate IsFailure() {
      Err?
    }

    function PropagateFailure<U>(): Result<U, E>
      requires Err?
    {
      Err(error)
    }

    function Extract(): T
      requires Ok?
    {
      value
    }
  }
}
