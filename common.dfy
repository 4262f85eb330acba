/** Option and Result: the nullable values and error returns of the modelled code. */
module Common {

  /** A value that may be absent: SQL NULL, a missing row, an unset React state. */
  datatype Option<+T> = None | Some(value: T)

  /** Either a success value or the error the source throws. */
  datatype Result<+T, +E> = Ok(value: T) | Err(error: E)
}
