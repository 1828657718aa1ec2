/** The optional values of the renderer: `std::optional` fields and nullable handles. */
module Wrappers {

  datatype Option<+T> = None | Some(value: T)
}
