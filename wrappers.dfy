/** The optional value that a Python function returns as `None` or as a value. */
module Wrappers {
  datatype Option<+T> = None | Some(value: T)
}
