/** Success/failure and present/absent wrappers used throughout the model. */
module Results {

  /** The outcome of an operation that may throw: a value, or the error it threw. */
  datatype Result<+T, +E> = Success(value: T) | Failure(error: E)

  /** A value that may be absent. */
  datatype Option<+T> = None | Some(value: T)
}
