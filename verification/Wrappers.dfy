/** A value that may be absent, for Python's `None`. */
module Wrappers {
  datatype Option<+T> = None | Some(value: T)
}
