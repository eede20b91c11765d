/** Shared vocabulary: optional values, error results, and bytes. */
module Base {

  datatype Option<+T> = None | Some(value: T)

  datatype Result<+T, +E> = Ok(value: T) | Err(error: E)

  newtype Byte = x: int | 0 <= x < 256

  /** The content of a file. */
  type Bytes = seq<Byte>
}
