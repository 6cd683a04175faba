/** An optional value, used for the result of a dictionary lookup. */
module Options {
  datatype Option<+T> = None | Some(value: T)
}
