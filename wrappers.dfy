/** Optional values: an absent query parameter, an absent store entry or an
    absent `content` field of a request body. */
module Wrappers {
  datatype Option<+T> = None | Some(value: T)
}
