/** Optional values, used for missing map entries and for decodes that may fail. */
module Wrappers {
  datatype Option<+T> = None | Some(value: T)
}
