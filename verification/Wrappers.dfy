/** Small value types shared by every component of the model. */
module Wrappers {

  datatype Option<+T> = None | Some(value: T)

  datatype Result<+T, +E> = Ok(value: T) | Err(error: E)

  /** A byte on a wire or in a file. */
  newtype byte = x: int | 0 <= x < 256

  type Bytes = seq<byte>
}
