/** Optional values: a JavaScript `undefined` or a missing lookup. */
module Wrappers {

  datatype Option<+T> = None | Some(value: T)
}
