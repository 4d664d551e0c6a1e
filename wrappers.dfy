/** Failure-carrying values shared by the whole model: the Python exceptions
    the robot code raises become the `Err` side of a `Result`. */
module Wrappers {

  datatype Option<+T> = None | Some(value: T)

  /** The Python exception classes that the modelled code can raise. */
  datatype Error =
    | ArithmeticError  // mismatched matrix dimensions
    | AssertionError   // failed `assert` (non-callable callback, wrong vector size)
    | KeyError         // reading a container key that was never stored
    | IndexError       // index past the end of a list or array
    | TypeError        // `[0] * None`, starting a thread on a non-callable
    | ValueError       // numpy operands whose shapes cannot be broadcast together

  datatype Result<+T> = Ok(value: T) | Err(error: Error)
}
