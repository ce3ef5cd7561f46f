/** Failure-carrying wrappers used across the invoice model: `Option` for
    JavaScript's null/undefined/NaN outcomes and `Result` for an operation
    that can throw. */
module Wrappers {

  datatype Option<+T> = None | Some(value: T) {
    /** The value, or `default` when absent. */
    function GetOr(default: T): T {
      match this
      case Some(v) => v
      case None => default
    }
  }

  datatype Result<+R, +E> = Success(value: R) | Failure(error: E)
}
