/** Wrappers used for the source's `Option` and `Result` values. */
module Wrappers {

  /** Rust's `Option<T>`. */
  datatype Option<+T> = None | Some(value: T)

  /** Rust's `Result<T, E>`; `Err(())` of a `FromStr` impl becomes `None` of an `Option` instead. */
  datatype Result<+T, +E> = Success(value: T) | Failure(error: E)
}
