/** Failure signalling of the library.
    The two exception classes of the library become the two tags of `Error`;
    a Python runtime error that escapes a routine without a handler (an unbound
    local, a division by zero) is `Outcome.Raises`. */
module Errors {

  /** The library's two failure kinds: bad parameters, detected before any
      computation, and a failure during the computation. */
  datatype Error = InvalidInput | CalculationFailure

  /** What a validating routine hands back: a value, or one of the two failures. */
  datatype Result<+T> = Ok(value: T) | Err(error: Error)

  /** What a routine without a handler hands back: a value, or the runtime
      error it lets escape. */
  datatype Outcome<+T> = Value(value: T) | Raises
}
