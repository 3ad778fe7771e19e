/** Optional values. */
module Wrappers {
  datatype Wrap<T> = Nothing | Just(value: T)
}
