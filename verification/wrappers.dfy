/** Optional values and fallible results, used wherever the Python code
    returns `None` or raises an exception that its callers observe. */
module Wrappers {

  datatype Option<+T> = None | Some(value: T) {
    function GetOr(default: T): T {
      match this
      case Some(v) => v
      case None => default
    }
  }

  /** A value or the message of the exception the Python code raises. */
  datatype Result<+T> = Ok(value: T) | Err(error: string)
}
