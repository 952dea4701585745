/** The one shared helper type: a value that may be absent (a NULL column, a missing key). */
module Options {
  datatype Option<+T> = None | Some(value: T)
}
