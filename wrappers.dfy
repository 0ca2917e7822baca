/** Optional values, the counterpart of std::optional in the modelled code. */
module Wrappers {

  datatype Option<+T> = None | Some(value: T)
}
