/** Stock types shared by the component models. */
module Wrappers {

  datatype Option<+T> = None | Some(value: T)

  datatype Result<+T, +E> = Ok(value: T) | Err(error: E)

  type Byte = b: int | 0 <= b < 256
  type Bytes = seq<Byte>
}
