/** Failure-carrying datatypes shared by the whole model.

    The modelled programs signal failure by raising Python exceptions, and
    whether a failure is handled depends on its exception class (the
    controller catches only ValueError, the test harness catches every
    exception). Each operation that can raise therefore returns a `Result`
    whose failure side names the exception class.
 */
module Outcomes {

  datatype Option<+T> = None | Some(value: T)

  /** The Python exception classes the modelled code can raise. */
  datatype PyError =
    | ValueError(message: string)
    | KeyError
    | IndexError
    | ZeroDivisionError

  /** Either a normal return or an exception that escaped the operation. */
  datatype Result<+T> = Ok(value: T) | Raised(error: PyError)
}
