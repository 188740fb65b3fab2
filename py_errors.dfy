/** Python exceptions that the modelled code can raise, and the result type
    that carries either a value or the exception that escaped. */
module PyErrors {

  /** The exception kinds raised on the modelled paths. */
  datatype PyError =
    | AssertionError        // a failed `assert`
    | NotImplementedError   // `raise NotImplementedError`
    | IndexError            // indexing past the end of a list or tensor
    | ValueError            // a bad argument (numpy buffer size, a zero range step)
    | RuntimeError          // torch refusing a view, a broadcast or requires_grad_
    | KeyError              // a missing dictionary key
    | AttributeError        // reading an attribute an object does not have
    | ZeroDivisionError     // a Python division by zero
    | TypeError             // an element type numpy has no counterpart for

  /** A value, or the exception raised while computing it. */
  datatype Result<+T> = Ok(value: T) | Raise(error: PyError) {

    predicate IsFailure() {
      Raise?
    }

    function PropagateFailure<U>(): Result<U>
      requires Raise?
    {
      Raise(error)
    }

    function Extract(): T
      requires Ok?
    {
      value
    }
  }

  datatype Option<+T> = None | Some(value: T)

  /** `sum` over a list or a mask of flags: the number of flags that hold. */
  function CountTrue(flags: seq<bool>): nat
    decreases |flags|
  {
    if flags == [] then 0
    else CountTrue(flags[..|flags| - 1]) + (if flags[|flags| - 1] then 1 else 0)
  }
}
