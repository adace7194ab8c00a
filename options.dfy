/** The optional value used where the Python code passes or returns `None`. */
module Options {
  datatype Option<T> = None | Some(value: T)
}
