/** Small failure-carrying datatypes shared by the other modules. */
module Wrappers {

  /** A value that may be absent. */
  datatype Option<+T> = None | Some(value: T)

  /** Either a value or an error, as Go's `(T, error)` pairs are used here. */
  datatype Result<+T, +E> = Ok(value: T) | Err(error: E)
}
