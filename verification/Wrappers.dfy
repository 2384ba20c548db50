/** The failure-carrying datatypes used by the other modules. */
module Wrappers {

  datatype Option<+T> = None | Some(value: T)

  /** The outcome of a member that throws in the source: `Failure` carries what was thrown. */
  datatype Result<+T, +E> = Success(value: T) | Failure(error: E)
}
