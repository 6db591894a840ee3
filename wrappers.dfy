/** Optional values and error-carrying results shared by every stage. */
module Wrappers {

  /** A value that may be missing: a null cell or an absent column. */
  datatype Option<+T> = None | Some(value: T) {
    function GetOr(default: T): T {
      match this
      case Some(v) => v
      case None => default
    }
  }

  /** The outcome of an operation that can raise: `Err` carries the exception text. */
  datatype Result<+T> = Ok(value: T) | Err(msg: string)
}
