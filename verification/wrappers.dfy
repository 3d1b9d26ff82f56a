/** The result types shared by all modules. */
module Wrappers {
  /** The result of an operation that the source lets fail with an error value. */
  datatype Outcome<+T, +E> = Ok(value: T) | Err(error: E)

  datatype Option<+T> = None | Some(value: T)
}
