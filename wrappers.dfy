/** The optional value the model uses for "maybe absent" results: the bound
    model client and the number read back from a citation label. */
module Wrappers {

  datatype Option<T> = None | Some(value: T)
}
