/** Failure-carrying values shared by every module: a Python call that raises
    is modelled as a `Result` (or `Option`) instead of a precondition. */
module Wrappers {

  datatype Option<+T> = None | Some(value: T)

  datatype Result<+T, +E> = Ok(value: T) | Err(error: E)
}
