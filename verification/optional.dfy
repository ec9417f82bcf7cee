/** The Some/None datatype used wherever the source works with a value that may be Python's None. */
module Optional {

  datatype Option<+T> = None | Some(value: T)
}
