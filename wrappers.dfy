/** The Option datatype used for reads that may fail and for optional tokens. */
module Wrappers {
  datatype Option<+T> = None | Some(value: T)
}
