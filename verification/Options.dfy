/** A value that may be missing, as null, undefined or None is in the sources. */
module Options {
  datatype Option<+T> = None | Some(value: T)
}
