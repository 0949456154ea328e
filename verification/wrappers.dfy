/** The optional value used wherever the application's Swift code uses an
    optional (`T?`): a failable initializer, an `as?` cast, a weak reference. */
module Wrappers {

  datatype Option<+T> = None | Some(value: T)
}
