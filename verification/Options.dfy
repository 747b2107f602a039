/** An optional value: the program's nil pointers and missing rows. */
module Options {
  datatype Option<+T> = None | Some(value: T)
}
