/** The optional value used wherever the application has "no value" (a missing
    lookup, `undefined`, `NaN` from a failed parse). */
module Wrappers {

  datatype Option<+T> = None | Some(value: T)
}
