/** Failure-carrying wrappers shared by the other modules. */
module Common {

  /** A value that may be absent; Python's `None` is `None` here. */
  datatype Option<+T> = None | Some(value: T)

  /** The outcome of an operation that the source lets raise an exception. */
  datatype Result<+T, +E> = Ok(value: T) | Err(error: E)
}
