/** Failure-carrying return types shared by the model's modules. */
module Wrappers {

  /** A value that may be missing: used where the source would produce a
      non-finite number (a division by zero). */
  datatype Option<+T> = None | Some(value: T)

  /** The result of an operation that can fail with an error message. */
  datatype Result<+T, +E> = Success(value: T) | Failure(error: E)
}
