/** Option and Result, the two wrappers the rest of the model uses for the
    source's nullable values and thrown exceptions. */
module Wrappers {

  /** A nullable value: `None` is C#'s `null` (or JavaScript's `undefined`). */
  datatype Option<+T> = None | Some(value: T) {
    function GetOr(default: T): T {
      match this
      case Some(v) => v
      case None => default
    }
  }

  /** An operation that either returns a value or throws an exception. */
  datatype Result<+T, +E> = Ok(value: T) | Err(error: E)
}
