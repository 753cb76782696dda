/** The optional value that slots, replies and lookups carry. */
module Wrappers {
  datatype Option<+T> = None | Some(value: T)
}
