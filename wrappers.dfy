/** Option, Result and Outcome, the failure-carrying shapes the model uses. */
module Wrappers {

  datatype Option<+T> = None | Some(value: T) {
    function GetOr(default: T): T {
      match this
      case Some(v) => v
      case None => default
    }
  }

  datatype Result<+R, +E> = Success(value: R) | Failure(error: E)

  /** A step that either completes or fails with an error, returning nothing. */
  datatype Outcome<+E> = Pass | Fail(error: E)
}
