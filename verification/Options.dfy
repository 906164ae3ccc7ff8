/** An optional value: a null pointer, a free mutex, an absent service. */
module Options {
  datatype Option<+T> = None | Some(value: T)
}
