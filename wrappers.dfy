/** Option and Result, the stock failure-carrying datatypes used throughout the model. */
module Wrappers {

  datatype Option<+T> = None | Some(value: T)

  /** A computation that either yields a value or fails with an error (a thrown exception in the source). */
  datatype Result<+R, +E> = Ok(value: R) | Err(error: E)
}
