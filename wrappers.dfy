/** Failure-compatible wrappers shared by every module: an optional value
    (Python's `None` or a value) and the outcome of an operation that may
    raise one of the Python exceptions the modelled code can raise. */
module Wrappers {

  datatype Option<+T> = None | Some(value: T)

  /** The exceptions the modelled code raises or lets escape. Messages are
      not modelled, except where the code builds them itself. */
  datatype PyError =
    | KeyError(key: string)          // a dictionary lookup of a missing key
    | IndexError                     // indexing past the end of a list
    | TypeError                      // subscripting `None`
    | ValueError                     // `int()` of a malformed literal, `len()` of a negative count
    | AttributeError(name: string)   // reading an attribute that was never set
    | ResponseError(description: string, url: string)   // steampak's own web error

  datatype Result<+T> = Ok(value: T) | Err(error: PyError) {
    predicate IsFailure() { Err? }
    function PropagateFailure<U>(): Result<U>
      requires Err?
    {
      Err(error)
    }
    function Extract(): T
      requires Ok?
    {
      value
    }
  }
}
