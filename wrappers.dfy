/** Failure-carrying values for the places where the Python code raises. */
module Wrappers {

  datatype Option<+T> = None | Some(value: T)

  /** `Err` names the Python exception the source would raise. */
  datatype Result<+T> = Ok(value: T) | Err(error: string)
}
