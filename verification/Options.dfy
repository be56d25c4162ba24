/** A value that may be absent: NULL pointers and lookups that find nothing. */
module Options {
  datatype Option<+T> = None | Some(value: T)
}
