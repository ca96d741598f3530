/** An optional value: the source's `None`, or an input that failed to parse. */
module Options {
  datatype Option<+T> = None | Some(value: T)
}
