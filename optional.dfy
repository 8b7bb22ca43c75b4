/** Swift's optional type (`T?`), used for an item's quadrant and for a scheduled callback. */
module Optional {

  datatype Option<+T> = None | Some(value: T)
}
