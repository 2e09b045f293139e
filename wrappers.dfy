/** Option and Result, the two shapes every lexer operation returns. */
module Wrappers {

  /** Rust's `Option`: a character of lookahead, or nothing at end of input. */
  datatype Option<+T> = None | Some(value: T)

  /** Rust's `Result`: a token, or a lexical error. */
  datatype Result<+T, +E> = Ok(value: T) | Err(error: E)
}
