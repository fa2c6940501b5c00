// A value that may be absent: Go's nil pointers, SQL NULLs and "no rows".
module Options {
  datatype Option<+T> = None | Some(value: T)
}
