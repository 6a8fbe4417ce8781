/** Optional values and error results shared by the model's modules. */
module Wrappers {

  datatype Option<+T> = None | Some(value: T)

  /** The outcome of an operation the game may refuse, such as a
      constructor that throws on an invalid argument. */
  datatype Result<+T, +E> = Success(value: T) | Failure(error: E)
}
