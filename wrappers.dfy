/** Optional values: a course lookup that finds nothing yields None. */
module Wrappers {
  datatype Option<+T> = None | Some(value: T)
}
