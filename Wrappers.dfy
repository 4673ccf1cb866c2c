/** Optional values: the model's stand-in for a null cell or tile reference. */
module Wrappers {
  datatype Option<+T> = None | Some(value: T)
}
