/** The optional value used where the sources return `None` or leave a key out. */
module Options {
  datatype Option<+T> = None | Some(value: T)
}
