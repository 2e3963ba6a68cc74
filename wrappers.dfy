/** Optional and failure-carrying values shared by the model's modules. */
module Wrappers {

  /** A value that may be absent: JavaScript's `undefined`/`null` results, a failed parse. */
  datatype Option<+T> = None | Some(value: T) {
    function GetOr(default: T): T {
      match this
      case Some(v) => v
      case None => default
    }
  }

  /** A computation that either produced a value or stopped with an error. */
  datatype Result<+T, +E> = Ok(value: T) | Err(error: E)
}
