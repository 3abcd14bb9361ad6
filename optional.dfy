/** The usual Some/None wrapper, used for the fields that Python leaves as `None`/`False`. */
module Optional {
  datatype Option<+T> = None | Some(value: T)
}
