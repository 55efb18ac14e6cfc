/** Failure-compatible wrappers shared by the model: an optional value and a
    result that is either a value or an error. Python's `None`, and the
    exceptions the program raises, are modelled with these. */
module Wrappers {

  datatype Option<+T> = None | Some(value: T)

  datatype Result<+T, +E> = Success(value: T) | Failure(error: E)
}
