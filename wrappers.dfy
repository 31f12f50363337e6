/** Failure-carrying values used in place of Python's `None` and exceptions. */
module Wrappers {

  /** Python's "a value or None". */
  datatype Option<T> = None | Some(value: T)

  /** A call that returns a value or raises. */
  datatype Result<T, E> = Success(value: T) | Failure(error: E)

  /** A call that returns nothing useful or raises. */
  datatype Outcome<E> = Pass | Fail(error: E)
}
