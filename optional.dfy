/** The usual optional value, used for the C code's NULL pointers. */
module Optional {
  datatype Option<T> = None | Some(value: T)
}
