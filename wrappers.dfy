/** Failure-compatible wrappers shared by every module of the model. */
module Wrappers {

  /** An optional value: Rust `Option`, Python `Optional`, TypeScript `T | null`. */
  datatype Option<+T> = None | Some(value: T)

  /** A value or an error: Rust `Result`, or a thrown exception in Python and TypeScript. */
  datatype Result<+T, +E> = Ok(value: T) | Err(error: E)
}
