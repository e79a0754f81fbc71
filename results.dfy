/** Small failure-carrying datatypes shared by the other modules. */
module Results {

  /** An optional value. */
  datatype Option<+T> = None | Some(value: T)

  /** The value of an operation that either succeeds or reports an error. */
  datatype Result<+T, +E> = Ok(value: T) | Err(error: E)
}
