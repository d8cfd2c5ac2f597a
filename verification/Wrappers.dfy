/** Failure-carrying values shared by the models: an optional value and a
    value-or-error result standing for a JavaScript exception. */
module Wrappers {

  datatype Option<+T> = None | Some(value: T)

  datatype Result<+T, +E> = Success(value: T) | Failure(error: E)
}
