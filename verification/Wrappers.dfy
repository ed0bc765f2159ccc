/** The result of a computation that the source may abandon with an error or a nil. */
module Wrappers {
  datatype Option<+T> = None | Some(value: T)
}
