/** The optional value used wherever the proxy has a nil pointer, a zero time or an error return. */
module Options {
  datatype Option<+T> = None | Some(value: T)
}
