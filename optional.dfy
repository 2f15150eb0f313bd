/** The absent-or-present value used wherever the Go code returns a pointer that may be nil. */
module Optional {

  datatype Option<+T> = None | Some(value: T)
}
