/** Optional values, fallible results and panics, as the Rust sources use them. */
module Wrappers {

  /** Rust's `Option<T>`. */
  datatype Option<+T> = None | Some(value: T) {
    function GetOr(default: T): T {
      match this
      case Some(v) => v
      case None => default
    }
  }

  /** Rust's `Result<T, E>`. */
  datatype Result<+T, +E> = Ok(value: T) | Err(error: E)

  /**
   * What a command does when the Rust code reaches `unwrap` (or its variant with a message),
   * `assert!` or an out-of-range `Vec` operation: it aborts the process.
   * `Panicked` names the call that aborts; `Returned` holds an ordinary return.
   */
  datatype Outcome<+T> = Returned(value: T) | Panicked(site: string)
}
