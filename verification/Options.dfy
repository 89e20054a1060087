/** The optional value used wherever the source reads a nullable column or a
    comma-ok result. */
module Options {
  datatype Option<+T> = None | Some(value: T)
}
