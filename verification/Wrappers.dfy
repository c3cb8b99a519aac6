/** The usual optional and fallible values, and the content of a file. */
module Wrappers {
  type Bytes = seq<bv8>

  datatype Option<+T> = None | Some(value: T)

  datatype Result<+T, +E> = Ok(value: T) | Err(error: E)
}
