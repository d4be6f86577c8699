/** Wrappers standing in for Rust's `Option` and `Result`. */
module Wrappers {

  /** Rust's `Option<T>`. */
  datatype Option<+T> = None | Some(value: T) {

    /** `Option::unwrap_or`. */
    function UnwrapOr(default: T): T {
      match this
      case Some(v) => v
      case None => default
    }
  }

  /** Rust's `Result<T, E>`; a panic of the source is a `Failure` here. */
  datatype Result<+T, +E> = Success(value: T) | Failure(error: E)
}
