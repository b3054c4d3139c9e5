/** Optional values: a pandas NaN/None, a missing column, a failed lookup. */
module Wrappers {
  datatype Option<+T> = None | Some(value: T)
}
