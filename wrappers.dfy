/** Option and Result: the "maybe missing" and "raised or returned" values
    of the Python code, made explicit. */
module Wrappers {

  datatype Option<+T> = None | Some(value: T) {
    /** `dict.get(key, default)`: the value when present, else the default. */
    function GetOr(default: T): T {
      match this
      case Some(v) => v
      case None => default
    }
  }

  /** A call that either returned a value or raised an exception whose
      `str(e)` is `error`. */
  datatype Result<+R> = Success(value: R) | Failure(error: string)
}
