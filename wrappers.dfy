/** Option, Result and Outcome: the usual shapes for "maybe absent" and "may fail". */
module Wrappers {
  datatype Option<T> = None | Some(value: T)

  datatype Result<T, E> = Success(value: T) | Failure(error: E)

  /** The result of an operation that returns nothing but may raise. */
  datatype Outcome<E> = Pass | Fail(error: E)
}
