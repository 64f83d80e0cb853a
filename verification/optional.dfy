/** Failure-carrying wrappers shared by the operand reconciliation model.
    Go's `(value, error)` pairs and nil values become these datatypes. */
module Optional {

  /** A value that may be absent (Go's nil). */
  datatype Option<+T> = None | Some(value: T)

  /** A computation that either yields a value or fails with an error (Go's `(T, error)`). */
  datatype Result<+T, +E> = Ok(value: T) | Err(error: E)
}
