/** The two result shapes the other modules share. */
module Wrappers {

  /** A nullable column or an absent value. */
  datatype Option<+T> = None | Some(value: T)

  /** A return value, or the exception the source raises instead. */
  datatype Result<+T, +E> = Ok(value: T) | Err(error: E)
}
