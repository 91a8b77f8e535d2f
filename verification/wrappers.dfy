/** Optional values: JavaScript's `undefined`/`null` and missing DOM elements. */
module Wrappers {

  datatype Option<+T> = None | Some(value: T)
}
