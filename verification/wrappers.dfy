/** Optional values and success/failure results shared by every module. */
module Wrappers {

  /** A value that may be absent: `null`/`undefined` in the client, a nil pointer on the server. */
  datatype Option<+T> = None | Some(value: T) {

    /** The wrapped value, or `default` when absent. */
    function GetOr(default: T): T {
      match this
      case Some(v) => v
      case None => default
    }
  }

  /** The outcome of an operation that can fail with an error of type E. */
  datatype Result<+T, +E> = Ok(value: T) | Err(error: E)
}
