/** The "value or nothing" type: a JavaScript `null`-able field or a
    `BehaviorSubject<T | null>` slot, and the result of an Array `find`. */
module Optional {
  datatype Option<+T> = None | Some(value: T)
}
