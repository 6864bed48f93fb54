/** Failure-carrying wrappers used by the model of the HTTP request body command. */
module Results {

  /** A value that may be absent. */
  datatype Option<+T> = None | Some(value: T)

  /** Either a successful value or the reason the computation stopped. */
  datatype Result<+R, +E> = Success(value: R) | Failure(error: E)
}
