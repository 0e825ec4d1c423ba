/** The usual optional-value datatype, used for attributes and references
    that may be absent (`null` in the page scripts). */
module Wrappers {

  datatype Option<+T> = None | Some(value: T)
}
