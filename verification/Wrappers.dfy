// An optional value: Go's pointers that may be nil.
module Wrappers {
  datatype Option<+T> = None | Some(value: T)
}
