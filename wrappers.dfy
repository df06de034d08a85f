/** Optional values: `std::string::npos` for a failed search, and an unset `boost::optional`. */
module Wrappers {

  datatype Option<+T> = None | Some(value: T)
}
