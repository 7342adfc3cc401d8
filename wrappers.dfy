/** Option and Result, used for JavaScript's `undefined` and for thrown errors. */
module Wrappers {

  /** `None` stands for JavaScript's `undefined`. */
  datatype Option<+T> = None | Some(value: T)

  /** `Failure` stands for a thrown `Error`; its payload says which one. */
  datatype Result<+T, +E> = Success(value: T) | Failure(error: E)
}
