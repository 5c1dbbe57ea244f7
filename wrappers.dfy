/** A Java reference that may be null, for the few places where the cache
    distinguishes null from a value. */
module Wrappers {
  datatype Option<+T> = None | Some(value: T)
}
