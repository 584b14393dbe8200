/** Failure-carrying values shared by the other modules. */
module Results {

  datatype Option<+T> = None | Some(value: T)

  /** The outcome of an operation that either succeeds with a value or raises an error. */
  datatype Result<+T, +E> = Success(value: T) | Failure(error: E)
}
