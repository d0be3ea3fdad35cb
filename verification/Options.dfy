/** The absent-or-present value used wherever the program has a nullable pointer or column. */
module Options {
  datatype Option<+T> = None | Some(value: T)
}
