/** Option and Result, as the Rust sources use them (`Option<T>`, `Result<T, &str>`). */
module Wrappers {

  datatype Option<+T> = None | Some(value: T)

  /** A Rust `Result<T, &'static str>`: the error side carries a message. */
  datatype Result<+T> = Ok(value: T) | Err(message: string)
}
