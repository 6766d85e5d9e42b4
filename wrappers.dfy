/** Option and Result wrappers for the Rust `Option` and `Result<_, String>` values. */
module Wrappers {
  datatype Option<T> = None | Some(value: T)

  /** A Rust `Result` whose error side is the message text the source reports. */
  datatype Result<T> = Ok(value: T) | Err(error: string)

  /** A panic ends the process; it is modelled as this error. */
  const PANIC := "panic"
}
