/** The optional-value datatype used for Mongoose's optional paths and for query results. */
module Wrappers {

  datatype Option<+T> = None | Some(value: T)
}
