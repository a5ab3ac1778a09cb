/** Option values, for Python's None and for searches that may not match. */
module Wrappers {
  datatype Option<+T> = None | Some(value: T)
}
