/** The optional value used throughout: a field a record may lack, or a lookup that may miss. */
module Options {
  datatype Option<+T> = None | Some(value: T)
}
