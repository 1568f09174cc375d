/** A value or nothing, for the source's null pointers and failed calls. */
module Options {
  datatype Option<+T> = None | Some(value: T)
}
