/** Failure-carrying wrappers used throughout the model in place of null and exceptions. */
module Results {

  /** A value that may be absent; `None` stands for Java's null. */
  datatype Option<+T> = None | Some(value: T)

  /** The outcome of an operation that either yields a value or throws. */
  datatype Result<+T, +E> = Success(value: T) | Failure(error: E)

  /** The outcome of a check that either passes or reports one error. */
  datatype Outcome<+E> = Pass | Fail(error: E)
}
