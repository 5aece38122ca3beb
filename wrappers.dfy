/** The optional value used for fields a record may lack and for values a parse may not produce. */
module Wrappers {

  datatype Option<+T> = None | Some(value: T)

}
