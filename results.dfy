/** The one failure the pipeline can run into: a list subscript out of range. */
module Results {

  /** Python's IndexError, raised by a subscript past the end of a list. */
  datatype Error = IndexError

  datatype Result<T> = Success(value: T) | Failure(error: Error)
}
