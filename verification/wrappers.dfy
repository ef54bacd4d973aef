/** Failure-carrying wrappers shared by the crawler model. */
module Wrappers {

  /** A value that may be absent: the shape of Go's `(T, ok bool)` and `(T, error)` returns
      when the error carries nothing the caller reads. */
  datatype Option<+T> = None | Some(value: T)

  /** A value or an error. */
  datatype Result<+T, +E> = Ok(value: T) | Err(error: E)
}
