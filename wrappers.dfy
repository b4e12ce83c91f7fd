/** Optional values: `None` stands for Python's `None`, and for an exception where a
    foreign call can raise one. */
module Wrappers {
  datatype Option<+T> = None | Some(value: T)
}
