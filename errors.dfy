/**
 * The failures the library can raise, as one tagged enumeration.
 *
 * TokenizerError and ParserError are the library's own exception family
 * (both derive from VnnLibError); the remaining constructors are the Python
 * built-in exceptions that the constraint compiler lets escape (a failed
 * `assert`, a bad unpacking or `int()` conversion, an out-of-range list index,
 * an explicit RuntimeError or NotImplementedError, a method missing from
 * a value of the wrong type, a handler called with the wrong arguments).
 */
module Errors {

  datatype Error =
    | TokenizerError(message: string)
    | ParserError(message: string)
    | AssertionError(message: string)
    | ValueError(message: string)
    | IndexError(message: string)
    | RuntimeError(message: string)
    | NotImplementedError(message: string)
    | AttributeError(message: string)
    | TypeError(message: string)
  {
    /** True for the two classes that derive from VnnLibError. */
    predicate IsVnnLibError() {
      TokenizerError? || ParserError?
    }
  }

  datatype Option<+T> = None | Some(value: T)

  /** A value or the error that aborted its computation. */
  datatype Result<+T> = Ok(value: T) | Err(error: Error) {
    predicate IsFailure() {
      Err?
    }

    function PropagateFailure<U>(): Result<U>
      requires Err?
    {
      Err(error)
    }

    function Extract(): T
      requires Ok?
    {
      value
    }
  }

  /** Python's `repr` of a string, as error messages print it (quoting only, no escaping). */
  function Repr(s: string): string {
    "'" + s + "'"
  }
}
