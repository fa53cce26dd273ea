/** Optional values: a JavaScript `undefined`, `null` or NaN is `None`. */
module Wrappers {
  datatype Option<+T> = None | Some(value: T)
}
