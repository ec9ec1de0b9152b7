/** Outcomes of the store's operations.

    Python raises exceptions where this model returns `Err(message)`; the message is the
    text `str(e)` would give wherever the model knows it. */
module Wrappers {

  datatype Option<+T> = None | Some(value: T)

  datatype Result<+T> = Ok(value: T) | Err(error: string)
}
