/** The optional value used for the template's optional fields and for lookups. */
module Options {
  datatype Option<+T> = None | Some(value: T)
}
