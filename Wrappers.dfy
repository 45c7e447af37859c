/** A value that may be absent: JavaScript's `null` for the optional state of the UI. */
module Wrappers {
  datatype Option<+T> = None | Some(value: T)
}
