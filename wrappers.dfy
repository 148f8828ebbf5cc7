/** The optional value used wherever the source yields `undefined` or nothing at all. */
module Wrappers {
  datatype Option<+T> = None | Some(value: T)
}
