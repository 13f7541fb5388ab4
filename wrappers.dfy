/** The optional and failure-carrying values the model uses in place of
    Python's `None` and of the error messages a route handler flashes. */
module Wrappers {

  datatype Option<+T> = None | Some(value: T)

  datatype Result<+T, +E> = Success(value: T) | Failure(error: E)
}
