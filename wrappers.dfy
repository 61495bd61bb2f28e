/** The optional value the components use for "nothing here": an element that is
    not mounted, a scroll direction not yet known, no card selected. */
module Wrappers {
  datatype Option<+T> = None | Some(value: T)
}
