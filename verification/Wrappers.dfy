/** Failure-carrying datatypes shared by the model: an optional value (PHP's
    "value or null") and the outcome of a remote call (a value or a fault
    raised by the transport). */
module Wrappers {

  /** A value that may be absent; stands for PHP's `null`. */
  datatype Option<+T> = None | Some(value: T)

  /** Either the value a call returned or the fault it raised. */
  datatype Result<+R, +E> = Success(value: R) | Failure(error: E)
}
