module Options {

  /** The conventional optional value. */
  datatype Option<+T> = None | Some(value: T)
}
