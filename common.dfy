/** Shared vocabulary: optional values, the .NET exceptions that abort a Unity
    event handler part-way, and the integer and float arithmetic of C#. */
module Common {

  datatype Option<T> = None | Some(value: T)

  /** An exception thrown inside an event handler. Unity logs it and skips the
      rest of the handler; whatever the handler changed before the throw stays. */
  datatype Fault =
    | NullReference     // NullReferenceException: an array field is still null
    | IndexOutOfRange   // IndexOutOfRangeException: an array index past its end
    | NegativeSize      // OverflowException: `new T[n]` with a negative n

  datatype Outcome = Completed | Faulted(fault: Fault)

  /** Mathf.Abs on a float, with `real` standing for `float`. */
  function Abs(x: real): (r: real)
    ensures r >= 0.0 && (r == x || r == -x)
  {
    if x < 0.0 then -x else x
  }

  /** C#'s integer `/`: the quotient rounded toward zero. */
  function TruncDiv(a: int, b: int): int
    requires b != 0
  {
    var q := (if a < 0 then -a else a) / (if b < 0 then -b else b);
    if (a < 0) != (b < 0) then -q else q
  }

  /** C#'s integer `%`: the remainder takes the sign of the dividend. */
  function TruncMod(a: int, b: int): int
    requires b != 0
  {
    a - b * TruncDiv(a, b)
  }

  /** The array an optional reference holds, or none when it is null. */
  function OrEmpty<T>(o: Option<seq<T>>): seq<T>
  {
    if o.Some? then o.value else []
  }
}
