/** Error reporting shared by every module: the exceptions the toolkit raises become
    values of `Error`, and every operation that can raise returns a `Result`. */
module Wrappers {

  /** The Python exception classes the modelled code raises. */
  datatype Error =
    | ValueError
    | TypeError
    | AttributeError
    | IndexError
    | AssertionError
    | NotImplementedError

  datatype Option<+T> = None | Some(value: T)

  /** A value passed where the source checks `isinstance`: either an instance of the
      expected class or an object of some other class. */
  datatype Typed<+T> = Instance(value: T) | OtherType

  datatype Result<+T> = Ok(value: T) | Err(error: Error) {
    predicate IsFailure() { Err? }

    function PropagateFailure<U>(): Result<U>
      requires Err?
    {
      Err(error)
    }

    function Extract(): T
      requires Ok?
    {
      value
    }
  }
}
