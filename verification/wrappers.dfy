/** Optional values and fallible results, used wherever the source returns
    `null`/`undefined` or throws. */
module Wrappers {

  /** A value that may be absent: `null` or `undefined` in the source. */
  datatype Option<+T> = None | Some(value: T) {

    /** The wrapped value, or `default` when absent. */
    function GetOr(default: T): T {
      match this
      case Some(v) => v
      case None => default
    }
  }

  /** The outcome of an operation that may throw. */
  datatype Result<+T, +E> = Ok(value: T) | Err(error: E)
}
