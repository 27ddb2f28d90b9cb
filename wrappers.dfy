/** Failure-compatible wrappers used throughout the model: Python's `None`
    and raised exceptions become `None` and `Err`. */
module Wrappers {

  datatype Option<+T> = None | Some(value: T) {
    /** Returns the value held in `Some`, or `default` for `None`. */
    function GetOr(default: T): T {
      match this
      case Some(v) => v
      case None => default
    }
  }

  datatype Result<+R, +E> = Ok(value: R) | Err(error: E)
}
