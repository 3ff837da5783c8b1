/** An optional value: used where a Python operation can fail with an exception
    (an index out of range) and where an argument defaults to None. */
module Optional {
  datatype Option<T> = None | Some(value: T)
}
