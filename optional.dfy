/** The optional value used for errors and faults throughout the model. */
module Optional {
  datatype Option<T> = None | Some(value: T)
}
