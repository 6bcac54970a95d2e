/** Optional values and failures, used in place of null and exceptions. */
module Wrappers {
  datatype Option<+T> = None | Some(value: T)
}
