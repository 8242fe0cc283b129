/** The optional value used for nullable pointers. */
module Options {
  datatype Option<+T> = None | Some(value: T)
}
