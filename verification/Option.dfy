/** Values that may be absent: the source's nulls and undefineds. */
module Options {
  datatype Option<+T> = None | Some(value: T)
}
