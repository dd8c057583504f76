/** Optional values, fallible results and bytes, used throughout the model. */
module Wrappers {

  type Byte = x: int | 0 <= x < 256

  datatype Option<+T> = None | Some(value: T)

  datatype Result<+T, +E> = Success(value: T) | Failure(error: E)
}
