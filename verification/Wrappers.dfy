/** Results that may be missing, and results that may be errors. */
module Wrappers {
  datatype Option<+T> = Some(value: T) | None

  datatype Result<+T, +E> = Ok(value: T) | Err(error: E)
}
