/** Failure-carrying datatypes shared by the whole model. */
module Wrappers {

  datatype Option<+T> = None | Some(value: T)

  datatype Result<+R, +E> = Success(value: R) | Failure(error: E)

  /** The Python exceptions the modelled code can raise and does not catch. */
  datatype PyError =
    | OverflowError   // int.to_bytes given a value that does not fit
    | AttributeError  // a method called on an object that lacks it (list.close)
    | ValueError      // list.remove of an element that is not in the list
    | RuntimeError    // a set changed size while it was being iterated
    | KeyError        // a selector asked to register a descriptor it already holds
}
