/** A value or none: what the source returns with an error, a nil pointer or a missing map entry. */
module Options {
  datatype Option<+T> = None | Some(value: T)
}
