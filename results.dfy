/** Option and Result wrappers shared by the whole model. */
module Results {

  datatype Option<+T> = None | Some(value: T)

  /** An operation that either produces a value or fails with a message. */
  datatype Result<+T, +E> = Ok(value: T) | Err(error: E)
}
