/** The `Result` shape of Rust's `std::result::Result`, used for every fallible operation. */
module Wrappers {
  datatype Result<+T, +E> = Ok(value: T) | Err(error: E)

  /** Rust's `Option`, used for the optional claims of a token. */
  datatype Option<+T> = None | Some(value: T)
}
