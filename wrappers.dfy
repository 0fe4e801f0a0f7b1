/** The Option datatype used for scans that may fail to return. */
module Wrappers {

  datatype Option<+T> = None | Some(value: T)
}
