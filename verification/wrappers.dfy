/** A minimal optional-value type, used for a file that could not be opened
    and for conversions that may have no answer. */
module Wrappers {

  datatype Option<+T> = None | Some(value: T)

}
