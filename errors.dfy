/**
 * The failures the terminal controller can raise, and the result wrappers
 * that carry them in place of Java exceptions.
 */
module Errors {

  /** The exceptions that can leave `Terminal`'s operations. */
  datatype Error =
    /** `stty` ran but exited with a non-zero status; carries that status and its output. */
    | SttyFailed(code: int, output: string)
    /** `stty` could not be started, its output could not be read, or the wait was interrupted. */
    | SttyUnavailable
    /** `Integer.parseInt` refused this token (`NumberFormatException`). */
    | NumberFormat(token: string)

  /** A value, or the exception that was raised instead of producing it. */
  datatype Result<T> = Ok(value: T) | Err(error: Error)

  datatype Option<T> = None | Some(value: T)
}
