/** Optional values, used for the predecessor link of a search node and for moves that may be refused. */
module Wrappers {
  datatype Option<+T> = None | Some(value: T)
}
