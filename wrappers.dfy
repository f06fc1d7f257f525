/** Optional values, the exceptions that escape the pipeline's operations, and the result shapes that carry them. */
module Wrappers {

  datatype Option<T> = None | Some(value: T)

  /** The exception kinds the modelled Python code lets propagate to its caller. */
  datatype Exception =
    | CastError            // `astype(int)` on a value that is not an integer (ValueError) or outside 64 bits (OverflowError)
    | ZeroDivisionError    // `(total_rows + batch_size - 1) // batch_size` with batch_size == 0
    | TruncateError        // the TRUNCATE statement failed (re-raised)
    | ConnectError         // `engine.connect()` for the batch loop failed (not caught)
    | AuthenticationError  // the password-grant request failed (re-raised)
    | MissingTokenError    // the auth reply had no "access_token" field (KeyError)
    | TotalNotNumeric      // `int(...)` of the text after "/" in Content-Range (ValueError)

  /** A function that returns a value or raises. */
  datatype Result<T> = Ok(value: T) | Raised(exc: Exception)

  /** A function that returns None or raises. */
  datatype Outcome = Completed | Failed(exc: Exception)
}
