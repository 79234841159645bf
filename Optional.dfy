/** The optional value used for nullable results (`null` weather readings, a
    missing storage key, `Array.prototype.find` that finds nothing). */
module Optional {
  datatype Option<+T> = None | Some(value: T)
}
