/** Option and Result, shared by every module of the model. */
module Wrappers {

  datatype Option<+T> = None | Some(value: T) {
    function GetOr(default: T): T {
      match this
      case Some(v) => v
      case None => default
    }
  }

  /** The source's thrown exceptions become the Err constructor. */
  datatype Result<+T, +E> = Ok(value: T) | Err(error: E)
}
