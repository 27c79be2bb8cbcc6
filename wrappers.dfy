/** A value that may be absent, as Python's `None`. */
module Wrappers {
  datatype Option<+T> = None | Some(value: T)
}
