/**
 * Outcomes of operations that can raise in the original Python code.
 * Every Python exception the modelled code raises becomes an `Err`
 * carrying the exception class (and, where the code fixes one, its message).
 */
module Results {

  datatype Option<+T> = None | Some(value: T)
  {
    predicate IsFailure() {
      None?
    }

    function PropagateFailure<U>(): Option<U>
      requires None?
    {
      None
    }

    function Extract(): T
      requires Some?
    {
      value
    }
  }

  /** The Python exception classes raised by the modelled code. */
  datatype Error =
    | ValueError(msg: string)
    | TypeError(msg: string)
      /** A failed dictionary or set lookup; `key` is the missing key when it
          is a string, and the empty string when it is an object. */
    | KeyError(key: string)
    | NotImplementedError
    | OverflowError
    | AssertionError(msg: string)
    | BufferError(msg: string)
    | IndexError
      /** A method looked up on a value whose type does not have it, such as `.upper()` on a number. */
    | AttributeError(msg: string)

  datatype Result<+T> = Ok(value: T) | Err(error: Error)
  {
    predicate IsFailure() {
      Err?
    }

    function PropagateFailure<U>(): Result<U>
      requires Err?
    {
      Err(error)
    }

    function Extract(): T
      requires Ok?
    {
      value
    }
  }
}
