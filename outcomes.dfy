/** Shared result types: Python's `None`, the exceptions the core lets escape, and how a run ends early. */
module Outcomes {

  datatype Option<+T> = None | Some(value: T)

  /** The Python exceptions the modelled code can raise without catching them. */
  datatype PyError = IndexError | KeyError(key: string) | RuntimeError

  /** A value, or the exception a Python expression raised instead. */
  datatype Result<+T> = Ok(value: T) | Err(error: PyError)

  /** How a run stops before its end: `sys.exit(code)`, or an exception that reaches the top. */
  datatype Halt = Exit(code: int) | Raised(error: PyError)
}
