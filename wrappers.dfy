/** Optional values and results with an error, for the nullable fields and failing calls of the storefront. */
module Wrappers {

  /** A value that may be absent: JSON `null`/`undefined` on the client, `None` on the server. */
  datatype Option<+T> = None | Some(value: T) {

    /** The value, or `default` when absent (JavaScript's `x ?? default`). */
    function GetOr(default: T): T {
      match this
      case Some(v) => v
      case None => default
    }
  }

  /** The outcome of an operation that either yields a value or fails with an error. */
  datatype Result<+T, +E> = Ok(value: T) | Err(error: E)
}
