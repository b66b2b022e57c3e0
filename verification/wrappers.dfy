/** The two result types the modules below share. */
module Wrappers {

  datatype Option<+T> = None | Some(value: T)

  /** A call that either produced a value or was refused for a stated reason. */
  datatype Result<+T, +E> = Ok(value: T) | Err(error: E)
}
