/** Types shared by every part of the model. */
module Common {
  /** A value that may be missing. */
  datatype Option<+T> = None | Some(value: T)

  /** The outcome of an operation that the program reports by returning or by throwing. */
  datatype Result<+T, +E> = Ok(value: T) | Err(error: E)

  /** An unsigned octet, as an integer. */
  type Byte = x: int | 0 <= x < 256
}
