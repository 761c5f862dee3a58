/** Option and Result, as the rest of the model uses them for `undefined` and thrown errors. */
module Wrappers {

  /** `None` stands for JavaScript's `undefined` (or `null`) where a value may be missing. */
  datatype Option<+T> = None | Some(value: T) {
    function GetOr(default: T): T {
      match this
      case Some(v) => v
      case None => default
    }
  }

  /** `Err` stands for an exception thrown by the modelled code. */
  datatype Result<+T, +E> = Ok(value: T) | Err(error: E)
}
