/** A value that may be missing, for lookups and queries that can fail. */
module Wrappers {

  datatype Option<+T> = None | Some(value: T)
}
