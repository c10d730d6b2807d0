/** Failure-carrying datatypes shared by the modules of this project. */
module Wrappers {

  /** An optional value: the TypeScript `T | undefined`. */
  datatype Option<+T> = None | Some(value: T)

  /** The settlement of a promise: resolved with a value or rejected with an error. */
  datatype Result<+R, +E> = Success(value: R) | Failure(error: E)
}
