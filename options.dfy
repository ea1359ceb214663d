/** The Option datatype used wherever the source has a nullable reference or a failed lookup. */
module Options {

  datatype Option<+T> = None | Some(value: T)
}
