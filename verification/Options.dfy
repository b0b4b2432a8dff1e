/** The optional value that several components return for "none". */
module Options {
  datatype Option<+T> = None | Some(value: T)
}
