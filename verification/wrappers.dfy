/** The optional value used by the components below. */
module Wrappers {
  datatype Option<+T> = None | Some(value: T)
}
