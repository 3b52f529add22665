/** The success-or-failure value that Rust's `Result<T, E>` carries. */
module Wrappers {

  datatype Result<+T, +E> = Ok(value: T) | Err(error: E)
}
