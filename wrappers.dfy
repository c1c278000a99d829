/** Optional values, used for the player slot and for the content error of a map scan. */
module Wrappers {
  datatype Option<+T> = None | Some(value: T)
}
