/** The basic types shared by the libraries: the byte, and an optional value. */
module Types {

  /** BYTE: an unsigned 8-bit value. */
  type Byte = bv8

  datatype Option<T> = None | Some(value: T)
}
