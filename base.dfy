/** Shared result types: the .NET exceptions the core can raise, and the
    optional/nullable values it passes around. */
module Base {

  /** A value that may be absent: a C# reference that may be null, or a
      `Nullable<int>` that may have no value. */
  datatype Option<+T> = None | Some(value: T)

  /** The exceptions the modelled code lets escape to its caller. */
  datatype Exception =
    | NullReference        // a member was used on a null string or node
    | ArgumentNull         // a null argument reached a library call that rejects it
    | ArgumentOutOfRange   // Substring with a negative or too-large length
    | Argument             // Enum.Parse did not recognise the text
    | Overflow             // Enum.Parse saw a number outside the Int32 range
    | Format               // DateTime.ParseExact rejected the text

  /** The value of an expression that either returns or throws. */
  datatype Result<+T> = Ok(value: T) | Err(error: Exception)

  /** The outcome of a setter or a void method: it completed, or it threw. */
  datatype Outcome = Completed | Threw(error: Exception)

  /** A string as concatenation and `String.Format` write it: null as
      nothing. */
  function OrEmpty(s: Option<string>): string
  {
    if s.None? then "" else s.value
  }
}
