/** The optional-value and result wrappers shared by the modules of this model. */
module Wrappers {

  /** An optional value: `None` stands for a missing key, an absent element or JavaScript's `undefined`. */
  datatype Option<+T> = None | Some(value: T)

  /** The outcome of a Python expression: a value, or the exception it raises. */
  datatype Result<+R, +E> = Success(value: R) | Failure(error: E)
}

/** The Python exceptions the modelled code can raise. */
module Errors {

  datatype PyError =
    | IndexError            // `xs[-1]` on an empty list
    | KeyError(key: string) // `d[key]` on a dict without `key`
    | TypeError             // subscripting `None`
}
