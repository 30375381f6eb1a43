/** A value that may be absent: a missing dictionary key or a JSON null on the
    Python side. */
module Optional {

  datatype Option<T> = None | Some(value: T)
}
