/** Option, Result and the exceptions the bot's handlers can raise. */
module Wrappers {

  datatype Option<+T> = None | Some(value: T)

  /** A computation that either yields a value or raises an error (a Python exception). */
  datatype Result<+T, +E> = Ok(value: T) | Err(error: E)

  /** The exceptions of the core: a KeyError on a dictionary lookup, the OverflowError of
      date arithmetic, and pytz's UnknownTimeZoneError for a location without a zone. */
  datatype Error = KeyMissing(key: string) | DateOverflow | UnknownTimeZone
}
