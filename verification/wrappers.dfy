/** Optional values: a Python `None`/value pair, or the outcome of an
    operation that may raise and whose exception the caller swallows. */
module Wrappers {

  datatype Option<+T> = None | Some(value: T)
}
