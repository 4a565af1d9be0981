/** Failure-free optional values, in place of nil pointers and missing rows. */
module Wrappers {
  datatype Option<+T> = None | Some(value: T)
}
