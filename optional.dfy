/** An optional value: a key that the store may or may not hold. */
module Optional {

  datatype Option<+T> = None | Some(value: T)
}
