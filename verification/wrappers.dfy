/** Optional values and results that carry an exception message. */
module Wrappers {

  datatype Option<+T> = None | Some(value: T) {
    function GetOr(default: T): T {
      match this
      case Some(v) => v
      case None => default
    }
  }

  /** The outcome of an operation that either returns a value or throws an
      exception; the exception is represented by its message. */
  datatype Result<+T> = Ok(value: T) | Err(message: string)
}
