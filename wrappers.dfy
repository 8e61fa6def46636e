/** Optional values: a selected marker or none, a parsed number or NaN. */
module Wrappers {
  datatype Option<+T> = None | Some(value: T)
}
