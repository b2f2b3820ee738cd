/** Optional values, used where the decoder leaves something unset or gives up. */
module Wrappers {

  datatype Option<+T> = None | Some(value: T)
}
