/** Optional values (Python's `None` versus a present value) and calls that may raise. */
module Wrappers {

  datatype Option<+T> = None | Some(value: T) {

    /** The value, or `default` when there is none (`dict.get(key, default)`). */
    function GetOr(default: T): (r: T)
      ensures Some? ==> r == value
      ensures None? ==> r == default
    {
      match this
      case Some(v) => v
      case None => default
    }
  }

  /** The Python exceptions the modelled code can raise. */
  datatype Exception = KeyError | ValueError | ZeroDivisionError | RuntimeError | AttributeError

  /** The outcome of a Python call that may raise: its value, or the exception it raises. */
  datatype Result<+T> = Ok(value: T) | Raised(error: Exception)
}
