/** Values standing in for the source's nullable arguments, optional results and thrown exceptions. */
module Wrappers {

  /** A value that may be absent: a null reference, or a lookup that found nothing. */
  datatype Option<+T> = None | Some(value: T)

  /** A computed value, or the exception that computing it raises. */
  datatype Result<+R, +E> = Success(value: R) | Failure(error: E)

  /** The outcome of a call that returns nothing but may raise an exception. */
  datatype Outcome<+E> = Pass | Fail(error: E)
}
