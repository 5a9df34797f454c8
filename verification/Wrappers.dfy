/** A value that may be missing: a failed assertion, a revert's absent error. */
module Wrappers {
  datatype Option<+T> = None | Some(value: T)
}
