/** The value that may be missing, for every other module. */
module Wrappers {
  datatype Option<+T> = None | Some(value: T)
}
