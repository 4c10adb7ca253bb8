/** A value that may be missing: JavaScript's `undefined` and `null` are both `None`. */
module Wrappers {
  datatype Option<+T> = None | Some(value: T)
}
