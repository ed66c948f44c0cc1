/** Failure-carrying results used across the model. */
module Results {

  datatype Option<+T> = None | Some(value: T)

  /** The outcome of a step that either succeeds with a value or stops the run with an error. */
  datatype Result<+T, +E> = Ok(value: T) | Err(error: E)
}
