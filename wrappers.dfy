/** Option and Result, the shapes used for Python's `None` and for a call
    that either returns a value or raises an exception carrying a message. */
module Wrappers {

  datatype Option<+T> = None | Some(value: T)

  /** `Err(message)` stands for an `Exception(message)` raised by the callee;
      `message` is what `str(e)` gives back to the handler. */
  datatype Result<+T> = Ok(value: T) | Err(error: string)
}
