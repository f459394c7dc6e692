/** Failure-compatible wrappers used in place of Go's nil pointers and error returns. */
module Wrappers {

  /** A value that may be absent; `None` plays the role of a nil `*html.Node`. */
  datatype Option<+T> = None | Some(value: T)

  /** Either a value or the reason it could not be produced. */
  datatype Result<+R, +E> = Success(value: R) | Failure(error: E)
}
