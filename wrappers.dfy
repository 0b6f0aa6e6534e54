/** Failure-compatible result types shared by the record store modules. */
module Wrappers {

  datatype Option<+T> = None | Some(value: T) {
    function GetOr(default: T): T {
      match this
      case Some(v) => v
      case None => default
    }
  }

  datatype Result<+R, +E> = Success(value: R) | Failure(error: E)

  /** A result that carries no value on success, only an acknowledgement. */
  datatype Outcome<+E> = Pass | Fail(error: E)
}
