/** Failure-carrying datatypes shared by the model. */
module Wrappers {

  /** A value that may be absent; models Go's nil-able `error`. */
  datatype Option<+T> = None | Some(value: T)

  /** Either a completed value or the reason processing was aborted. */
  datatype Result<+R, +E> = Success(value: R) | Failure(error: E)
}
