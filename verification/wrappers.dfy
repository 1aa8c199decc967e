/** An optional value: the source's optional pull-request fields and the
    optional `isModified` flag of a verdict. */
module Wrappers {

  datatype Option<+T> = None | Some(value: T)
}
