/** Option and Result: the model's stand-ins for C# null and for exceptions. */
module Wrappers {

  /** `None` plays the part of a C# null reference. */
  datatype Option<+T> = None | Some(value: T) {
    function GetOr(default: T): T {
      match this
      case Some(v) => v
      case None => default
    }
  }

  /** The outcome of an operation of the source that may throw. */
  datatype Result<+T, +E> = Ok(value: T) | Err(error: E)
}
