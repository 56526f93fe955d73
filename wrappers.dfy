/** Python's `Optional[T]` and the raise/return split of a call, as values. */
module Wrappers {

  datatype Option<+T> = None | Some(value: T)

  /** `Success` is a normal return; `Failure` is an exception that escaped the call. */
  datatype Result<+T, +E> = Success(value: T) | Failure(error: E)
}
