/** The absent-or-present value the game uses for `null`, `undefined` and
    failed lookups. */
module Optional {

  datatype Option<+T> = None | Some(value: T)
}
