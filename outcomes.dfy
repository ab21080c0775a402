/** Error results and dynamic argument checks shared by the whole model. */
module Outcomes {

  /** The Python exceptions the library raises. */
  datatype Error =
    | TypeError
    | ValueError
    | IndexError
    | ZeroDivisionError
    | AttributeError

  /** The value of a call that either returns or raises. */
  datatype Result<+T> = Ok(value: T) | Err(error: Error) {
    predicate IsFailure() { Err? }

    function PropagateFailure<U>(): Result<U>
      requires Err?
    {
      Err(error)
    }

    function Extract(): T
      requires Ok?
    {
      value
    }
  }

  /** An argument whose class is checked with `isinstance` at run time:
      either an instance of the expected class or some other object. */
  datatype Arg<+T> = Instance(value: T) | NotInstance
}
