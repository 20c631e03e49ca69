/** Option and Result values shared by every module of the model. */
module Wrappers {

  datatype Option<+T> = None | Some(value: T)

  /** The outcome of an operation that the extension reports back to its caller
      as a success flag, with a message on failure. */
  datatype Result<+T> = Ok(value: T) | Err(message: string)
}
