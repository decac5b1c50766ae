/** A value that may be absent: Python's `None`, or a lookup with no answer. */
module Wrappers {
  datatype Option<T> = None | Some(value: T)
}
