/** An optional value, for lookups and parsers that may find nothing. */
module Options {

  datatype Option<T> = None | Some(value: T)
}
