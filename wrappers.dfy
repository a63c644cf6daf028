/** Failure-carrying datatypes used for the exceptions the Python code raises. */
module Wrappers {

  datatype Option<+T> = None | Some(value: T)

  /** The errors raised by the modelled code, one variant per kind of exception. */
  datatype Error =
    | ParseError(what: string)      // pyparsing.ParseException: no grammar consumes the input
    | FormatError(what: string)     // molecule.FormatError in the regex versions
    | LookupError(what: string)     // IndexError / KeyError / ValueError from a failed table lookup
    | ValueError(what: string)      // ValueError raised explicitly or by int()/float()/pandas
    | TypeError(what: string)       // TypeError, e.g. tuple(int(charge))
    | NotImplemented(what: string)  // NotImplementedError

  datatype Result<+R> = Ok(value: R) | Err(error: Error) {
    predicate IsFailure() { Err? }
    function PropagateFailure<U>(): Result<U>
      requires Err?
    {
      Err(error)
    }
    function Extract(): R
      requires Ok?
    {
      value
    }
  }

  /** The messages of the exceptions that indexing, int() and float() raise. */
  const IndexError: Error := LookupError("list index out of range")
  const IntError: Error := ValueError("invalid literal for int() with base 10")
  const FloatError: Error := ValueError("could not convert string to float")

  datatype Outcome = Pass | Fail(error: Error)
}
