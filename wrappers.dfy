/** Option and Result values used by the rest of the model in place of
    C# null references and thrown exceptions. */
module Wrappers {

  /** A C# reference that may be null: `None` is null. */
  datatype Option<+T> = None | Some(value: T)

  /** Either the value a call returns or the exception it throws. */
  datatype Result<+T, +E> = Ok(value: T) | Err(error: E)
}
