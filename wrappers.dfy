/** Optional values and success-or-error results, used for null pointers and C++ exceptions. */
module Wrappers {

  /** A value that may be absent: a null pointer, an empty std::optional, an unassigned field. */
  datatype Option<+T> = None | Some(value: T)

  /** The value of a call that either returns normally or throws. */
  datatype Result<+T, +E> = Success(value: T) | Failure(error: E)

  /** The outcome of a call that returns nothing but may throw. */
  datatype Outcome<+E> = Pass | Fail(error: E)
}
