/** Failure-free optional values, used for Go pointers and results that may be absent. */
module Wrappers {
  datatype Option<+T> = None | Some(value: T)
}
