/** Option and Result: the values that stand for JavaScript's `null` and for a thrown error. */
module Wrappers {

  /** `None` stands for JavaScript `null` or `undefined`. */
  datatype Option<+T> = None | Some(value: T)

  /** `Failure` stands for a rejected promise / a thrown `Error`. */
  datatype Result<+R, +E> = Success(value: R) | Failure(error: E)
}
