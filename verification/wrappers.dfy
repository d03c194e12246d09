/** Failure-compatible wrappers shared by the whole model. */
module Wrappers {

  /** A value that may be absent: JavaScript's `undefined` / `null` / a missed lookup. */
  datatype Option<+T> = None | Some(value: T) {

    /** The wrapped value, or `default` when there is none. */
    function GetOr(default: T): T {
      match this
      case Some(v) => v
      case None => default
    }
  }

  /** The outcome of an operation that can fail with an error value. */
  datatype Result<+T, +E> = Ok(value: T) | Err(error: E)
}
