/** The absent-or-present value used for lookups that may miss and for optional errors. */
module Wrappers {

  datatype Option<+T> = None | Some(value: T)
}
