/** Helper types shared by every module. */
module Base {

  datatype Option<+T> = None | Some(value: T)

  /** Go strings and byte slices: one character per byte. */
  type Bytes = string
}
