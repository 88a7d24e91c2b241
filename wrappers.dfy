/** Option and Result, the two shapes every endpoint and handler of the model answers with. */
module Wrappers {

  datatype Option<+T> = None | Some(value: T)

  /** The outcome of an HTTP endpoint: a reply, or the HTTPException it raises. */
  datatype Result<+R, +E> = Success(value: R) | Failure(error: E)
}
