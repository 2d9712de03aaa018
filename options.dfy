/** The optional value used where the game stores "None or a value". */
module Options {

  datatype Option<+T> = None | Some(value: T)
}
