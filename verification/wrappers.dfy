/** Optional values and fallible results, shared by every module of the model.
    Rust's `Option`/`Result` and TypeScript's `T | undefined` / thrown errors map onto these. */
module Wrappers {

  datatype Option<+T> = None | Some(value: T) {
    function GetOr(default: T): T {
      match this
      case Some(v) => v
      case None => default
    }
  }

  datatype Result<+T, +E> = Ok(value: T) | Err(error: E)
}
