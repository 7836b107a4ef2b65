/** Small types shared by every module. */
module Common {

  datatype Option<+T> = None | Some(value: T)

  /** A Go call that returns a value and an error. */
  datatype Result<+T, +E> = Ok(value: T) | Err(error: E)
}
