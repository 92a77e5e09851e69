/** Optional values: `None` stands for the `null` / `undefined` of the source. */
module Wrappers {
  datatype Option<+T> = None | Some(value: T)
}
