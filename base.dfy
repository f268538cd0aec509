/** Small wrapper types shared by the other modules. */
module Base {

  /** A value that may be absent (Python's None). */
  datatype Option<T> = None | Some(value: T)

  /** The outcome of a step that may raise: Fail carries the exception's message. */
  datatype Result<T> = Ok(value: T) | Fail(error: string)
}
