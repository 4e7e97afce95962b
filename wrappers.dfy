/** The absent-or-present value used for every fallible boundary of the crawler. */
module Wrappers {
  datatype Option<+T> = None | Some(value: T)
}
