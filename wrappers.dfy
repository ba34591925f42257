/** The optional value used for every pointer that may be NULL in the module:
    the results of symbol lookups and of the registry's find function. */
module Wrappers {

  datatype Option<+T> = None | Some(value: T)
}
