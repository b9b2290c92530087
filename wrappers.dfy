/** Result of an operation that the source lets fail by throwing. */
module Wrappers {

  datatype Result<+T, +E> = Success(value: T) | Failure(error: E)

}
