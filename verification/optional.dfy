/** The usual optional value, for lookups and parses that can fail. */
module Optional {

  datatype Option<T> = None | Some(value: T)
}
