/** The optional-value and result datatypes shared by every module of the model. */
module Wrappers {
  datatype Option<+T> = None | Some(value: T) {
    function GetOr(default: T): T {
      match this
      case Some(v) => v
      case None => default
    }
  }

  /** The outcome of a call that can throw. */
  datatype Result<+T, +E> = Success(value: T) | Failure(error: E)
}
