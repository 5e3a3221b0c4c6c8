/** The optional value used wherever the Go code returns or stores a nil-able pointer. */
module Options {

  datatype Option<+T> = None | Some(value: T)

}
