/** Failure-compatible wrappers shared by every module of the model. */
module Results {

  /** An optional value: Python's `None` versus a value, C's NULL versus a pointer. */
  datatype Option<+T> = None | Some(value: T)

  /** The outcome of an operation that either yields a value or raises / returns an error. */
  datatype Result<+T, +E> = Ok(value: T) | Err(error: E)
}
