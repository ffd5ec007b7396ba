/** The optional value used for "no decoration" and for an unreadable store. */
module Wrappers {
  datatype Option<+T> = None | Some(value: T)
}
