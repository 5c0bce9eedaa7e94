/** Failure-carrying values shared by every module of the model. */
module Wrappers {

  /** A value that may be absent, as Rust's `Option` and as SQL NULL. */
  datatype Option<+T> = None | Some(value: T)

  /** What a Rust function call ends in: a returned `Ok`, a returned `Err`
      with its message, or a panic (`unwrap`, `expect`, `panic!`) with its message. */
  datatype Outcome<+T> = Ok(value: T) | Err(message: string) | Panic(message: string)

  /** The panic `unwrap()` raises on an `Err`; the error's own text is not
      modelled. */
  const UnwrapFailure: string := "called `Result::unwrap()` on an `Err` value"
}
