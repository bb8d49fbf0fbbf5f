/**
 * Option and Result, used across the model for JavaScript's `undefined`/`null`
 * and for the error paths of the modelled operations.
 */
module Wrappers {

  datatype Option<+T> = None | Some(value: T) {
    function GetOr(default: T): T {
      match this
      case Some(v) => v
      case None => default
    }
  }

  datatype Result<+T, +E> = Ok(value: T) | Err(error: E)
}
