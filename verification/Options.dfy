/** The optional value used by all modules. */
module Options {
  datatype Option<+T> = None | Some(value: T)
}
