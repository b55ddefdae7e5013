/** Option and Result, the shapes of Rust's `Option` and `Result` used by the model. */
module Wrappers {

  datatype Option<+T> = None | Some(value: T)

  /** `Ok`/`Err` of a fallible conversion (`TryFrom`). */
  datatype Result<+R, +E> = Success(value: R) | Failure(error: E)
}
