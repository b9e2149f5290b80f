/** Failure-carrying values shared by the whole model. */
module Wrappers {

  /** A PHP value that may be null, or an input key that may be absent. */
  datatype Option<+T> = None | Some(value: T) {
    function GetOr(default: T): T {
      match this
      case Some(v) => v
      case None => default
    }
  }

  /** Either a value or the exception that was thrown instead. */
  datatype Result<+R, +E> = Ok(value: R) | Err(error: E)

  /** A `void` PHP method: it returns normally or throws. */
  datatype Outcome<+E> = Pass | Fail(error: E)
}
