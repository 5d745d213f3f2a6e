/** The usual Some/None wrapper, used for partial functions of the model. */
module Optional {

  datatype Option<+T> = None | Some(value: T)
}
