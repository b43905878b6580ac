/** The optional-value and value-or-error types used across the model. */
module Wrappers {

  /** An optional value; in the JavaScript model `None` stands for `undefined`. */
  datatype Option<+T> = None | Some(value: T)

  /** A value or the error that stopped the computation (a thrown exception). */
  datatype Result<+R, +E> = Success(value: R) | Failure(error: E)
}
