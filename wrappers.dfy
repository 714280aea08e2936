/** Optional values and outcomes that carry an error message. */
module Wrappers {

  /** A value that may be absent: Python's `None` or a missing key. */
  datatype Option<+T> = None | Some(value: T) {
    function GetOr(default: T): T {
      match this
      case Some(v) => v
      case None => default
    }
  }

  /** Either a value or the message of the error raised instead. */
  datatype Result<+T> = Ok(value: T) | Err(error: string)
}
