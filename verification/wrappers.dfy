/** Failure-carrying values used across the model: a missing value, and the
    outcome of an operation that may raise a Python exception. */
module Wrappers {

  datatype Option<+T> = None | Some(value: T)

  /** `Raise(error)` stands for an exception escaping the modelled Python call;
      `error` is the exception's class and message as text. */
  datatype Result<+T> = Ok(value: T) | Raise(error: string)
}
