/** Optional values and Python exceptions as values. */
module Wrappers {
  datatype Option<T> = None | Some(value: T)
  {
    /** `d.get(key, default)`: the value when present, else the default. */
    function GetOr(default: T): T
    {
      if this.Some? then value else default
    }
  }

  /** The Python exception classes the modelled scripts can raise. */
  datatype PyError =
    | IndexError
    | KeyError
    | ValueError
    | ZeroDivisionError
    | RuntimeError
    | AttributeError
    | TypeError
    | NameError

  /** A computation that either returns a value or raises a Python exception. */
  datatype Result<T> = Ok(value: T) | Err(error: PyError)
}
