/** Failure-carrying return types shared by the model's modules. */
module Wrappers {

  /** A value that may be absent (an unset storage entry, `Option<T>` in Rust). */
  datatype Option<+T> = None | Some(value: T) {
    /** The value, or `default` when absent (Rust's `unwrap_or`). */
    function GetOr(default: T): T {
      match this
      case Some(v) => v
      case None => default
    }
  }

  /** The outcome of a contract call: `Ok` with a value, or `Err` with the reason. */
  datatype Result<+T, +E> = Ok(value: T) | Err(error: E)
}
