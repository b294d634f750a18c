/** The optional value used throughout: an absent row, column or answer. */
module Options {

  datatype Option<+T> = None | Some(value: T)
}
