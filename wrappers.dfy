/** Option, the usual stand-in for a missing value. */
module Wrappers {

  datatype Option<+T> = None | Some(value: T)
}
