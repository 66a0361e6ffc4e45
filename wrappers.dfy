/** Option type used for the places where the Python code raises an uncaught
    exception (IndexError, KeyError, ValueError, ...): `None` means the script
    stops there. */
module Wrappers {

  datatype Option<+T> = None | Some(value: T)
}
