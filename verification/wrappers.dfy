/** The optional value used wherever the page may or may not hold an element
    or an attribute. */
module Wrappers {

  datatype Option<+T> = None | Some(value: T)

}
