/** Option and Result values, and the Python exceptions the modelled code raises. */
module Wrappers {

  datatype Option<T> = None | Some(value: T) {
    /** The wrapped value, or `default` when there is none (Python's `dict.get(k, default)`). */
    function GetOr(default: T): T {
      match this
      case Some(v) => v
      case None => default
    }
  }

  /** The exception classes raised by the modelled code, each with its message. */
  datatype Error =
    | ValueError(message: string)
    | FileNotFoundError(message: string)
    | RuntimeError(message: string)
    | AssertionError(message: string)
    | KeyError(key: string)
    | ZeroDivisionError
    /** argparse's exit after a usage error, with the process status it exits with. */
    | SystemExit(code: int)

  /** A value, or the exception that was raised instead of returning it. */
  datatype Result<T> = Success(value: T) | Failure(error: Error)
}
