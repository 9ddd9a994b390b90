/** Failure-carrying values: a missing value, and a result that may be a raised error. */
module Wrappers {
  datatype Option<T> = None | Some(value: T)

  /** A Python call that either returns a value or raises `error`. */
  datatype Result<T> = Ok(value: T) | Err(error: string)
}
