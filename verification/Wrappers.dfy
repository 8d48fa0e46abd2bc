/** The optional value: the source's `undefined` and `null` results. */
module Wrappers {
  datatype Option<+T> = None | Some(value: T)
}
