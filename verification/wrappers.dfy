/** Optional values, used where the source returns a possibly-null handle or
    a "not found" position. */
module Wrappers {

  datatype Option<+T> = None | Some(value: T)
}
