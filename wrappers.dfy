/** The optional value used wherever the source has `undefined` or `null` as an alternative. */
module Wrappers {
  datatype Option<+T> = None | Some(value: T)
}
