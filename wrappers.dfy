/** The optional value used wherever the source returns `None` or has a
    missing dictionary key. */
module Wrappers {
  datatype Option<+T> = None | Some(value: T)
}
