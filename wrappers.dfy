/** Optional values, used for a missing timestamp and for a prediction that is NaN. */
module Wrappers {

  datatype Option<+T> = None | Some(value: T)
}
