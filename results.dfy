/** Optional values and success-or-error results used across the model. */
module Results {

  /** A value that may be absent: an undefined argument, a NULL column. */
  datatype Option<+T> = None | Some(value: T)

  /** The outcome of a check that either yields a value or fails with an error. */
  datatype Result<+T, +E> = Success(value: T) | Failure(error: E)
}
