/** Optional values: a field that may be missing, a parse that may yield NaN. */
module Wrappers {

  datatype Option<+T> = None | Some(value: T)
}
