/** The conventional optional value, used for the marker file (absent or present)
    and for the temporary directory (null pointer or a directory). */
module Wrappers {

  datatype Option<+T> = None | Some(value: T)

}
