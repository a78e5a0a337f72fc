/** A value that may be absent: the model of null pointers and missing JSON keys. */
module Wrappers {
  datatype Option<+T> = None | Some(value: T)
}
