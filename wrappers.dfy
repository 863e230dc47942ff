/** Optional results, for the foreign calls (text conversion, path resolution) that may fail. */
module Wrappers {
  datatype Option<+T> = None | Some(value: T)
}
