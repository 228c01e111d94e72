/** Option and Result, the carriers the model uses in
    place of C#'s nullable references and thrown exceptions. */
module Wrappers {

  /** A value that may be absent: `null` for references, `HasValue == false`
      for nullable value types. */
  datatype Option<+T> = None | Some(value: T)

  /** The outcome of an operation that either returns a value or throws. */
  datatype Result<+T, +E> = Ok(value: T) | Err(error: E)
}
