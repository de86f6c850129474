/** The outcome of an operation that either produces a value or raises an error. */
module Wrappers {

  datatype Result<T, E> = Success(value: T) | Failure(error: E)
}
