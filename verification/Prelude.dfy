/** Failure-carrying results shared by the modules. */
module Prelude {

  datatype Option<+T> = None | Some(value: T)

  /** A computed value, or the exception the source raises instead. */
  datatype Result<+T, +E> = Ok(value: T) | Raised(error: E)
}
