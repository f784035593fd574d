/** The value that may be absent: Python's `None` where a value could be. */
module Wrappers {
  datatype Option<+T> = None | Some(value: T)
}
