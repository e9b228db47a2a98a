/** Values that may be absent and computations that may fail: a C# reference
    that may be null is an Option, an operation that may throw is a Result. */
module Wrappers {

  datatype Option<+T> = None | Some(value: T)

  datatype Result<+T> = Success(value: T) | Failure(error: string)
}
