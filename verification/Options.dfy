/** The optional value used wherever the program has a nil pointer, a missing row or a missing file. */
module Options {
  datatype Option<+T> = None | Some(value: T)
}
