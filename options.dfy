/** The optional value used for "a piece or null" in the controller. */
module Options {

  datatype Option<+T> = None | Some(value: T)
}
