/**
  The error codes of ErrorMessage.h. In the program, reporting one of them
  prints a message and the help text to standard error and terminates the
  process with a failure status; here it is a value that the failing call
  returns to its caller.
 */
module ErrorMessage {

  /** The seven codes, in the order of the C++ enumeration. */
  datatype ErrorCode =
    | FilenameMissing
    | FileUnavailable
    | WrongLinesCount
    | WrongDelimiter
    | WrongArgument
    | ValueMissing
    | TailWithoutLines

  /** The value a call computes, or the error it reports. */
  datatype Result<+T> = Ok(value: T) | Err(code: ErrorCode)
}
