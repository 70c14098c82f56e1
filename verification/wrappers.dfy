/** Optional values: a stat that may fail, a cancellation that may never come. */
module Wrappers {

  datatype Option<+T> = None | Some(value: T)
}
