/** Optional values and error-carrying results, used for Python's `None`,
    JavaScript's `undefined`, and the server's HTTP error responses. */
module Wrappers {

  datatype Option<+T> = None | Some(value: T)

  datatype Result<+T, +E> = Success(value: T) | Failure(error: E)
}
