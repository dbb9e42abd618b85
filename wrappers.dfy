/** Option and Result values, and the Python exceptions the modelled code can raise. */
module Wrappers {

  datatype Option<+T> = None | Some(value: T)

  /** The exceptions that end one of the modelled Python functions early. */
  datatype PyError =
    | IndexError          // list or string index out of range, or [0] of an empty list
    | KeyError            // dictionary lookup of a missing key
    | ValueError          // int() of a malformed string, ctypes byte string too long
    | ZeroDivisionError   // division or modulo by zero
    | AssertionError      // a failed assert statement
    | UnboundLocalError   // a local variable read before any assignment
    | StatisticsError     // statistics.mean of no data

  datatype Result<+T> = Ok(value: T) | Err(error: PyError)
}
