/** The Option and Result datatypes shared by the other modules. */
module Common {

  /** A value that may be absent: a row that was not found, a body field that was not sent. */
  datatype Option<+T> = None | Some(value: T)

  /** The outcome of a check that either yields a value or rejects with an error. */
  datatype Result<+T, +E> = Ok(value: T) | Err(error: E)
}
