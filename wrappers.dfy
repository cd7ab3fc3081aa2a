/** Option and Result: absent values and error returns of the modelled handlers. */
module Wrappers {

  /** A value that may be missing (`undefined` / `null` in the application). */
  datatype Option<+T> = None | Some(value: T) {
    /** The value, or `default` when it is missing (the `x || default` idiom). */
    function GetOr(default: T): T {
      match this
      case Some(v) => v
      case None => default
    }
  }

  /** The outcome of an operation that can refuse with an error. */
  datatype Result<+T, +E> = Ok(value: T) | Err(error: E)
}
