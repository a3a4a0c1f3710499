/** The absent-or-present value the engine uses where the script stores `null`. */
module Wrappers {
  datatype Option<+T> = None | Some(value: T)
}
