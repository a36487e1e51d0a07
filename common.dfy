/** Outcome types shared by the modules of the model. */
module Common {

  datatype Option<T> = None | Some(value: T)

  /** The value of an operation, or the error it raises. */
  datatype Result<T, E> = Ok(value: T) | Err(error: E)

  /** The outcome of an operation that returns nothing but may raise. */
  datatype Status<E> = Success | Failure(error: E)

  /** A byte of a bytes-like object. */
  newtype byte = x: int | 0 <= x < 256
}
