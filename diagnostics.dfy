/** Failure reporting shared by every API instance.
    The error handler of an instance either records a non-fatal warning or raises a typed
    error; whether raising throws is configuration and is not modelled, so both become
    events in a log. */
module Diagnostics {

  datatype Option<+T> = None | Some(value: T)

  /** The three typed errors the core raises. */
  datatype ErrorKind = DriverError | InvalidUseError | InvalidParameterError

  datatype Diagnostic =
    | Warning(text: string)
    | Error(kind: ErrorKind, text: string)

  /** A value together with the diagnostics produced while computing it. */
  datatype Reported<+T> = Reported(value: T, events: seq<Diagnostic>)

  predicate IsDigit(c: char) { '0' <= c <= '9' }

  /** The number a string of decimal digits spells, most significant digit first. */
  function DigitsValue(s: string): nat
    requires forall i :: 0 <= i < |s| ==> IsDigit(s[i])
    decreases |s|
  {
    if s == [] then 0
    else
      var last := s[|s| - 1];
      assert IsDigit(last);
      DigitsValue(s[..|s| - 1]) * 10 + ((last as int) - ('0' as int))
  }

  /** Decimal rendering of a natural number, as `std::to_string` prints it: digits that
      spell `n`, with no leading zero except for `n == 0` itself. */
  function DecimalString(n: nat): (s: string)
    ensures |s| >= 1
    ensures forall i :: 0 <= i < |s| ==> IsDigit(s[i])
    ensures DigitsValue(s) == n
    ensures n == 0 ==> s == "0"
    ensures n > 0 ==> s[0] != '0'
    decreases n
  {
    var digit := [(('0' as int) + n % 10) as char];
    if n < 10 then digit
    else
      var prefix := DecimalString(n / 10);
      assert (prefix + digit)[..|prefix|] == prefix;
      prefix + digit
  }
}
