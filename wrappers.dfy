/** Optional values: `undefined`/`null`/`NaN` in the controller become None. */
module Wrappers {

  datatype Option<+T> = None | Some(value: T)
}
