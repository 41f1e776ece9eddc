/** Optional values, used for oracle answers that may be absent. */
module Wrappers {

  datatype Option<+T> = None | Some(value: T)
}
