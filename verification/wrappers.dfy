/** The optional-value datatype used wherever the service returns a
    nullable reference (`Record?`) or a record has a nullable field. */
module Wrappers {

  datatype Option<+T> = None | Some(value: T)
}
