/** Option and Result types for absent values and error paths, shared by every part of the model. */
module Wrappers {

  datatype Option<+T> = None | Some(value: T)

  /** A value or the error the source reports instead (an HTTP error, a rejected thunk's message). */
  datatype Result<+T, +E> = Ok(value: T) | Err(error: E)
}
