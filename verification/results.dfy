/** Failure-carrying values used across the model: an optional value (Python's
    `None`-able fields) and the outcome of a computation that can raise. */
module Results {

  /** A value that may be absent, as a field typed `X | None`. */
  datatype Option<+T> = None | Some(value: T)

  /** The outcome of a computation that either returns or raises a Python
      exception; `message` is the exception's text. */
  datatype Result<+T> = Ok(value: T) | Err(message: string)
}
