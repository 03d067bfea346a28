/** A value that may be absent: JavaScript's `undefined`/`null` and Java's
    `null` results are modelled as `None`. */
module Optional {

  datatype Option<T> = None | Some(value: T)
}
