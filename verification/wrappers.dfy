/** Failure-compatible wrappers used throughout the model: `Option` stands for
    Python's `Optional[...]` (None or a value), `Result` for a computation that
    either produces a value or raises. */
module Wrappers {

  datatype Option<+T> = None | Some(value: T)

  datatype Result<+R, +E> = Success(value: R) | Failure(error: E)
}
