/** A nullable column: `None` is SQL NULL. */
module Options {

  datatype Option<+T> = None | Some(value: T)

}
