/** An optional value: a Python argument that may be left as `None`. */
module Options {
  datatype Option<+T> = None | Some(value: T)
}
