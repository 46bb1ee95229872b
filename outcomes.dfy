/** Values shared by every part of the model: an optional value, the
    exceptions the wrapper raises, and the result of an operation that
    may raise one of them. */
module Outcomes {

  datatype Option<+T> = None | Some(value: T) {
    /** `value` when present, otherwise `default` (Python's `x if x is not None else default`). */
    function GetOr(default: T): T {
      match this
      case Some(v) => v
      case None => default
    }
  }

  /** The exceptions the core can raise. */
  datatype Error =
    | WiFiError(detail: string)  // the external tool reported a failure
    | TypeError(message: string) // an argument of neither accepted type
    | IndexError                 // a report without the expected second block
    | KeyError(key: string)      // a continuation line with no entry to extend

  /** Either the value an operation returns or the exception it raises. */
  datatype Result<+T> = Ok(value: T) | Err(error: Error)
}
