/** Error values and the Result/Option wrappers shared by every module.
    Each error stands for the Python or C# exception the source raises at that
    point; nothing is retried, so a failure simply propagates to the caller. */
module Results {

  datatype Error =
    | StructError       // struct.pack/unpack: short data or integer out of range
    | BadSignature      // FSignature.read: the bytes read differ from the expected ones
    | PrematureEnd      // FLump.read: the lump runs past the end of the buffer
    | AssertionFailed   // an `assert` of the source
    | IndexError        // list index out of range
    | KeyError          // dictionary key missing
    | AttributeError    // attribute missing (including a field type with no `write`)
    | ValueError        // list.index of an absent value, unpacking an empty sequence
    | TypeError         // a value of the wrong type handed to a field codec
    | ZeroDivision      // division by zero
    | NoProgress        // an array element that consumes no bytes: the source loops forever
    | Overflow          // C#: an array allocated with a negative length
    | NullReference     // C#: a member reached through a null reference

  datatype Result<+T> = Ok(value: T) | Err(error: Error) {
    predicate IsFailure() { Err? }

    function PropagateFailure<U>(): (r: Result<U>)
      requires Err?
    {
      Err(error)
    }

    function Extract(): (r: T)
      requires Ok?
    {
      value
    }
  }

  datatype Option<+T> = None | Some(value: T)
}
