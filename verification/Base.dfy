/** Small datatypes shared by every module. */
module Base {
  datatype Option<+T> = None | Some(value: T)
}
