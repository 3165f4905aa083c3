/** A value that may be absent: `undefined` from `find`, `null` from `getItem`, `NaN` from `parseInt`. */
module Options {
  datatype Option<T> = None | Some(value: T)
}
