/** Option and Result values, and the Python exceptions the model can raise. */
module Wrappers {

  datatype Option<+T> = None | Some(value: T)

  datatype Result<+T, +E> = Ok(value: T) | Err(error: E)

  /** The exceptions the model raises: `bytes.decode('utf-8')` raises UnicodeDecodeError,
      `int(bytes)` raises ValueError, and the client raises ResponseError when the server
      answers GET with the WRONGTYPE error. */
  datatype Exception = UnicodeDecodeError | ValueError | ResponseError
}
