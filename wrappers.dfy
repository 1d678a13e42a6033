/** The JavaScript "value or null/undefined" shape used across the composer. */
module Wrappers {
  datatype Option<+T> = None | Some(value: T)
}
