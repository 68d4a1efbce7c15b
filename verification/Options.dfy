/** A value that may be missing, for nil pointers and for calls that report failure. */
module Options {

  datatype Option<T> = None | Some(value: T)
}
