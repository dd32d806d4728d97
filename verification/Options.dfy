/** Optional values, for columns that may be NULL and lookups that may fail. */
module Options {
  datatype Option<+T> = None | Some(value: T)
}
