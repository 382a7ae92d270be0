/** Optional values, used where the modelled code either yields a value or fails. */
module Options {
  datatype Option<+T> = None | Some(value: T)
}
