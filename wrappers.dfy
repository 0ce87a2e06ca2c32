/** Option and Result datatypes used throughout the model (plain datatypes,
    without the members that `:-` needs). */
module Wrappers {

  datatype Option<+T> = None | Some(value: T)

  /** A computation that either produced a value or stopped with an error
      (in the modelled Go code: returned normally or panicked). */
  datatype Result<+R, +E> = Success(value: R) | Failure(error: E)
}
