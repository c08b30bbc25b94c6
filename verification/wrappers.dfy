/** Optional and fallible values. `Option` stands for the source's nullable
    columns and optional properties; `Result` for handlers that can stop with
    an error. */
module Wrappers {

  datatype Option<+T> = None | Some(value: T) {

    /** The value, or `default` when absent (the `??` of the source). */
    function GetOr(default: T): T {
      match this
      case Some(v) => v
      case None => default
    }
  }

  datatype Result<+R, +E> = Ok(value: R) | Err(error: E)
}
