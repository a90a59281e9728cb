/** The optional value used for the source's `None` and for operations that raise. */
module Wrappers {
  datatype Option<+T> = None | Some(value: T)
}
