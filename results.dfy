/** Failure-carrying result types shared by the modules of this model. */
module Results {

  /** The value of an operation, or the exception the source raises instead. */
  datatype Result<T, E> = Ok(value: T) | Err(error: E)

  datatype Option<T> = None | Some(value: T)
}
