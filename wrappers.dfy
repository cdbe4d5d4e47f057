/** The optional and outcome types used across the model: a nullable value and
    a value-or-error outcome. */
module Wrappers {

  /** A field that the schema allows to be `null`. */
  datatype Option<+T> = None | Some(value: T)

  /** The outcome of an operation that either yields a value or fails with
      an error (the source's thrown exceptions). */
  datatype Result<+T, +E> = Ok(value: T) | Err(error: E)
}
