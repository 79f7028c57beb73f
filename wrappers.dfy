/** Optional values, used for ids that may fail to parse and for lookups that may miss. */
module Wrappers {

  datatype Option<+T> = None | Some(value: T)
}
