/** Value wrappers shared by the model: JavaScript's `undefined`/`null` become None,
    and an operation that may throw returns a Result. */
module Common {

  datatype Option<+T> = None | Some(value: T)

  datatype Result<+T, +E> = Success(value: T) | Failure(error: E)
}
