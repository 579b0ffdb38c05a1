/** Values that may be absent: a C pointer that may be NULL, an allocation that may fail. */
module Wrappers {
  datatype Option<+T> = None | Some(value: T)
}
