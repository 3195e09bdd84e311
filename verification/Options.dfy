/** Results that may be missing: null pointers, rejected arguments, ends of iterations. */
module Options {

  datatype Option<+T> = None | Some(value: T)
}
