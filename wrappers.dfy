/** The failure-compatible value types the rest of the model uses. */
module Wrappers {

  /** Rust's `Option<T>`. */
  datatype Option<T> = None | Some(value: T)

  /** Rust's `Result<T, E>`. */
  datatype Result<T, E> = Success(value: T) | Failure(error: E)
}
