/** A value that may be missing: a null pointer, an unset field, an undefined cookie. */
module Options {
  datatype Option<+T> = None | Some(value: T)
}
