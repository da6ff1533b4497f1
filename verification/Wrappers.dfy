/** A value that may be absent: a null pointer in the sources. */
module Wrappers {
  datatype Option<+T> = None | Some(value: T)
}
