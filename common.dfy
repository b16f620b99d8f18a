/** Outcome types shared by every module of the model. */
module Common {

  /** A value that may be absent: Python's `None` next to a value. */
  datatype Option<+T> = None | Some(value: T)

  /** The Python exceptions the modelled code can raise. */
  datatype Fault =
    | AttributeError  // a method called on a value of the wrong type (`.get`, `.lower`)
    | TypeError       // `len`, iteration or hashing applied to an unsuitable value
    | KeyError        // a subscript that names no key of a dict
    | ValueError      // pandas refusing a column list whose width does not fit the rows

  /** Either a result or the exception that aborts the script run. */
  datatype Result<+T> = Ok(value: T) | Err(fault: Fault)
  {
    predicate IsFailure() {
      Err?
    }

    function PropagateFailure<U>(): Result<U>
      requires Err?
    {
      Err(fault)
    }

    function Extract(): T
      requires Ok?
    {
      value
    }
  }
}
