/** Option and Result, used for the nullable inputs and the failure paths of the service. */
module Wrappers {

  /** A value that may be missing: the model of a Java reference that may be null. */
  datatype Option<+T> = None | Some(value: T)

  /** Either a value or the reason why there is none. */
  datatype Result<+T, +E> = Ok(value: T) | Err(error: E)
}
