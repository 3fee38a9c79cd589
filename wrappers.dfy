/** Optional values, used for lookups that may miss and for partial decoders. */
module Wrappers {

  datatype Option<+T> = None | Some(value: T)
}
