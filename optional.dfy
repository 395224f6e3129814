/** The absent-or-present value that JavaScript writes as `null`/`undefined`
    or as a value. */
module Optional {

  datatype Option<+T> = None | Some(value: T)

}
