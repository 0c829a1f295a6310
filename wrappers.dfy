/** Option, Result and the exceptions of the director and the agency. */
module Wrappers {

  datatype Option<T> = None | Some(value: T)
  {
    function GetOr(default: T): T
    {
      match this
      case None => default
      case Some(v) => v
    }
  }

  /** The exceptions raised by the modelled code, and the ones it catches by class. */
  datatype Error =
    | ConfigError
    | SectionError(field: string)
    | ConfigNotSetup
    | ControllerReloadError(name: string)
    | ImportError(path: string)
    | AttributeError
    | ValueError
    | KeyError
    | ManagerError
    | SystemExit
    | KeyboardInterrupt
    | Failure(what: string)   // any other exception a loaded module raises
  {
    /** SystemExit and KeyboardInterrupt are re-raised by every `except` that names them. */
    predicate IsInterrupt()
    {
      SystemExit? || KeyboardInterrupt?
    }
  }

  datatype Result<T> = Ok(value: T) | Err(error: Error)

  /** The outcome of a statement sequence that returns nothing but may raise. */
  type Status = Option<Error>
}
