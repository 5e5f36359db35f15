/** Optional values and results shared by every part of the launcher model. */
module Values {

  /** A value that may be absent: Python's `None` versus a present value. */
  datatype Option<+T> = None | Some(value: T)

  /** The outcome of an operation that may raise: a value or the exception raised. */
  datatype Result<+T, +E> = Ok(value: T) | Err(error: E)
}
