/** The optional value used wherever the application may find nothing (a query with no hit, a query
    parameter that does not parse, a field absent from a request body). */
module Wrappers {

  datatype Option<+T> = None | Some(value: T)

}
