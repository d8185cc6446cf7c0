/** The optional value every other module uses for Swift's optionals and SQL's NULL. */
module Options {
  datatype Option<+T> = None | Some(value: T)
}
