/** Option and Result, the two shapes the location code returns: an Option for
    the standard string searches, a Result for every operation that can panic. */
module Wrappers {

  datatype Option<+T> = None | Some(value: T)

  datatype Result<+T, +E> = Success(value: T) | Failure(error: E)
}
