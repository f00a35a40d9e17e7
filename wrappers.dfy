/** Optional values and success-or-exception outcomes, shared by the other modules. */
module Wrappers {

  /** A value that may be absent (PHP's `isset` failing, or a null). */
  datatype Option<+T> = None | Some(value: T)

  /** The value a PHP call returns, or the exception it throws instead. */
  datatype Result<+R, +E> = Success(value: R) | Failure(error: E)
}
