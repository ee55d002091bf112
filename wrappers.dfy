/** Optional values: the model's stand-in for `std::optional` and for a
    lookup that may miss. */
module Wrappers {

  datatype Option<+T> = None | Some(value: T)
}
