/** Values that may be missing: NULL and -1 in the source. */
module Options {

  datatype Option<+T> = None | Some(value: T)
}
