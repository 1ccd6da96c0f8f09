/** The Option and Result datatypes shared by the model: an optional value and a
    success-or-error result. */
module Wrappers {

  /** A value that may be absent (the zero `time.Time` sentinel of the Go code
      becomes `None`). */
  datatype Option<+T> = None | Some(value: T)

  /** The `(value, error)` pair of a Go call that can fail. */
  datatype Result<+R, +E> = Success(value: R) | Failure(error: E)
}
