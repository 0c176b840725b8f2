/** Failure-compatible wrappers: an optional value (a nullable or optional
    field, or `undefined`), and the outcome of an operation that can throw. */
module Wrappers {

  datatype Option<+T> = None | Some(value: T)

  datatype Result<+T, +E> = Success(value: T) | Failure(error: E)
}
