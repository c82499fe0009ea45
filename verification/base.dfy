/** Small shared vocabulary: optional values, results, and the Python
    exceptions that the modelled tools raise or let escape. */
module Base {

  /** Python's `None` or a present value. */
  datatype Option<+T> = None | Some(value: T)

  /** A computation that either produces a value or raises. */
  datatype Result<+T, +E> = Ok(value: T) | Err(error: E)

  /** The exceptions that matter to the model. Exceptions raised inside a
      library the model does not look into (subprocess, paramiko, wandb,
      swanlab) are all `ForeignError` carrying their `str()` text. */
  datatype PyError =
    | TerminalSecurityError(msg: string)
    | IndexError
    | RuntimeError(msg: string)
    | NameError(name: string)
    | ValueError(msg: string)
    | TypeError(msg: string)
    | ForeignError(msg: string)
  {
    /** `str(e)` for each exception, as Python renders it. */
    function Text(): string
    {
      match this
      case TerminalSecurityError(m) => m
      case IndexError => "list index out of range"
      case RuntimeError(m) => m
      case NameError(n) => "name '" + n + "' is not defined"
      case ValueError(m) => m
      case TypeError(m) => m
      case ForeignError(m) => m
    }
  }
}
