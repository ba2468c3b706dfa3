/** Option and Result values for the error paths of the bot's operations. */
module Wrappers {

  /** An optional value: Python's `None` or a present value. */
  datatype Option<+T> = None | Some(value: T) {
    function GetOr(default: T): T {
      match this
      case Some(v) => v
      case None => default
    }
  }

  /** An outcome that either succeeds with a value or fails with an error, as a raised exception does. */
  datatype Result<+R, +E> = Success(value: R) | Failure(error: E)
}
