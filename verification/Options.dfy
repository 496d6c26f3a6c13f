/** A value that may be absent: a SQL NULL, a missing row, a JavaScript `null`. */
module Options {
  datatype Option<+T> = None | Some(value: T)
}
