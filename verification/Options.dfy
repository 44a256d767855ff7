/** Optional values, used for nullable columns and Go pointers. */
module Options {
  datatype Option<+T> = None | Some(value: T)
}
