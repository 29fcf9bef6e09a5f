/** The absent-or-present value used where the source returns `null` or falls back. */
module Wrappers {
  datatype Option<+T> = None | Some(value: T)
}
