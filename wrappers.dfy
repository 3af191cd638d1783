/** The optional value the page's browser lookups return (`null` or a value). */
module Wrappers {
  datatype Option<+T> = None | Some(value: T)
}
