/** The absent-or-present value used for lookups that may find nothing
    (a JavaScript `null` or `undefined` result). */
module Wrappers {
  datatype Option<+T> = None | Some(value: T)
}
