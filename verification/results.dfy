/** Success-or-error values that stand in for the exceptions the store raises. */
module Results {

  /** A value that may be absent: used for foreign decoders that can reject their input. */
  datatype Option<+T> = None | Some(value: T)

  /** The outcome of an operation: its value, or the error it raised. */
  datatype Result<+T, +E> = Ok(value: T) | Err(error: E)
}
