/** Optional values, the Python exceptions the core can raise, and results that carry either. */
module Outcomes {

  datatype Option<+T> = None | Some(value: T)

  /** The exceptions the modelled code raises or lets escape. */
  datatype Exception =
    | ValueError(message: string)
    /** A method such as `.strip()` or `.lower()` called on a value of the wrong type. */
    | AttributeError
    /** Iterating over a value that is not iterable (`None`, a number, a boolean). */
    | TypeError
    /** A plain `Exception(...)` raised by a wrapper; the message is its fixed prefix. */
    | Failure(message: string)

  /** A value, or the exception raised instead of returning one. */
  datatype Result<+T> = Ok(value: T) | Raised(error: Exception)
}
