/** Failure-carrying result types shared by the modules of this project. */
module Wrappers {

  /** A value that may be absent (the Java code's nullable return). */
  datatype Option<+T> = None | Some(value: T)

  /** A value or the reason why none could be produced. */
  datatype Result<+T, +E> = Ok(value: T) | Err(error: E)
}
