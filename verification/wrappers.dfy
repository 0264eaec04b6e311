/** Failure-carrying datatypes shared by the model. */
module Wrappers {

  /** A value or nothing; for a .NET reference, `None` stands for `null`. */
  datatype Option<+T> = None | Some(value: T)

  /** The outcome of an operation that either yields a value or raises an error. */
  datatype Result<+T, +E> = Ok(value: T) | Err(error: E)
}
