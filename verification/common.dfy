/** Small value wrappers shared by every module of the model. */
module Common {

  /** Python's `None` or a value. */
  datatype Option<+T> = None | Some(value: T)

  /** A value, or the exception an operation raises instead. */
  datatype Result<+T, +E> = Ok(value: T) | Err(error: E)
}
