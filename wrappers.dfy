/** Failure-carrying wrappers: `Option` for "not found" lookups and absent word
    indices, `Result` for operations that can reject their arguments. */
module Wrappers {

  datatype Option<+T> = None | Some(value: T)

  datatype Result<+R, +E> = Success(value: R) | Failure(error: E)
}
