/** A value that may be absent: JavaScript's `null`/`undefined` and the
    result of `find`/`findIndex` when nothing matches. */
module Optional {

  datatype Option<+T> = None | Some(value: T)

}
