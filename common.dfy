/** Small value types shared by every module of the model. */
module Common {

  /** A value that may be absent (`undefined` / `null` in the program). */
  datatype Option<T> = None | Some(value: T)

  /** The outcome of an operation that may throw: a value, or the error it threw. */
  datatype Result<T, E> = Ok(value: T) | Err(error: E)
}
