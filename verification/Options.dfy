/** The one option type of the project: a column that may be null, an answer that may be missing. */
module Options {
  datatype Option<+T> = None | Some(value: T)
}
