/** A value that may be absent, and one that may be an error instead. */
module Wrappers {

  datatype Maybe<+T> = None | Some(value: T)

  datatype Result<+T, +E> = Ok(value: T) | Err(error: E)
}
