/** Swift's optional values (`T?`): `nil` is `None`. */
module Wrappers {

  datatype Option<+T> = None | Some(value: T)
}
