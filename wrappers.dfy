/** The optional value used where the Go code has a nil or a failed decode. */
module Wrappers {
  datatype Option<+T> = None | Some(value: T)
}
