/** The optional value used for the source's optional slots. */
module Wrappers {
  datatype Option<+T> = None | Some(value: T)
}
