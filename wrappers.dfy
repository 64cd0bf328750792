/** The Option and Result datatypes shared by the modules of the model. */
module Wrappers {

  /** A value that may be absent; Python's `None` in the engine's scalar state. */
  datatype Option<+T> = None | Some(value: T)

  /** The outcome of a step that can end the process. */
  datatype Result<+R, +E> = Success(value: R) | Failure(error: E)
}
