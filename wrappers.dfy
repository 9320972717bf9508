/** Option and Result values used across the model in place of PHP's null, false and WP_Error. */
module Wrappers {

  /** A value that may be absent: PHP's `null` (or `false` from a failed lookup). */
  datatype Option<+T> = None | Some(value: T)

  /** The outcome of an operation that can fail with an error value. */
  datatype Result<+R, +E> = Success(value: R) | Failure(error: E)
}
