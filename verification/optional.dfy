/** An optional value: a JSON field that may be absent or null. */
module Optional {

  datatype Option<+T> = None | Some(value: T)
}
