/** Optional values (a C# reference that may be null) and results (a value or a typed error,
    standing in for the exceptions the client throws). */
module Wrappers {

  datatype Option<+T> = None | Some(value: T)

  datatype Result<+T, +E> = Success(value: T) | Failure(error: E)
}
