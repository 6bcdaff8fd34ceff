/** The optional value of the source's `T | undefined` fields and of the
    remote call's outcome. */
module Wrappers {

  datatype Option<+T> = None | Some(value: T)
}
