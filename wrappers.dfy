/** Optional values, used for the payload of a control-channel response. */
module Wrappers {
  datatype Option<+T> = None | Some(value: T)
}
