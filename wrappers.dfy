/** The optional value used wherever the modelled code yields `undefined`, `NaN` or "not found". */
module Wrappers {

  datatype Option<+T> = None | Some(value: T)

}
