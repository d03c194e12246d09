/**
 * The few pieces of JavaScript number semantics the simulation depends on:
 * `Math.round`, the truncating `%` operator, `Number(string)` on object keys
 * and the decimal text an integer key is stored under.
 */
module JsNumbers {
  import opened Wrappers

  /** `Math.round(x)`: the nearest integer, halves rounded towards +infinity. */
  function Round(x: real): (r: int)
    ensures r as real - 1.0 / 2.0 <= x < r as real + 1.0 / 2.0
  {
    (x + 1.0 / 2.0).Floor
  }

  /** The rounding interval determines `Math.round` uniquely. */
  lemma RoundUnique(x: real, k: int)
    requires k as real - 1.0 / 2.0 <= x < k as real + 1.0 / 2.0
    ensures Round(x) == k
  {
  }

  /** `Math.floor(a / b)` for a non-zero divisor. */
  function FloorDiv(a: real, b: real): (q: int)
    requires b != 0.0
    ensures q as real <= a / b < q as real + 1.0
  {
    (a / b).Floor
  }

  /** The quotient of `a / b` truncated towards zero, as JavaScript's `%` uses it. */
  function TruncQuot(a: int, b: int): int
    requires b > 0
  {
    if a >= 0 then a / b else -((-a) / b)
  }

  /** JavaScript's `a % b` on integers: the remainder takes the sign of the dividend. */
  function JsRem(a: int, b: int): (r: int)
    requires b > 0
    ensures a == TruncQuot(a, b) * b + r
    ensures a >= 0 ==> 0 <= r < b
    ensures a < 0 ==> -b < r <= 0
  {
    if a >= 0 then a % b else -((-a) % b)
  }

  /** A number argument as JavaScript's `Number(x) || 0` sees it. */
  datatype NumArg = Absent | Numeric(v: real) | NonNumeric

  /**
   * `Number(x) || 0` where `x` defaults to `dflt` when absent: a missing
   * argument takes the default, a non-numeric one (NaN) or zero becomes 0.
   */
  function NumberOr0(x: NumArg, dflt: real): (r: real)
    ensures x.NonNumeric? ==> r == 0.0
    ensures x.Numeric? ==> r == x.v
    ensures x.Absent? ==> r == dflt
  {
    match x
    case Absent => dflt
    case Numeric(v) => v
    case NonNumeric => 0.0
  }

  predicate IsDigit(c: char) {
    '0' <= c <= '9'
  }

  predicate AllDigits(s: string) {
    forall i :: 0 <= i < |s| ==> IsDigit(s[i])
  }

  function DigitValue(c: char): (d: nat)
    requires IsDigit(c)
    ensures d < 10
  {
    (c - '0') as nat
  }

  function DigitChar(d: nat): (c: char)
    requires d < 10
    ensures IsDigit(c) && DigitValue(c) == d
  {
    ('0' as int + d) as char
  }

  /** The value of a string of decimal digits, most significant first. */
  function DigitsValue(s: string): nat
    requires AllDigits(s)
  {
    if |s| == 0 then 0 else DigitsValue(s[..|s| - 1]) * 10 + DigitValue(s[|s| - 1])
  }

  /** `String(n)` for a non-negative integer: its shortest decimal text. */
  function DecimalString(n: nat): (s: string)
    ensures 0 < |s| && AllDigits(s)
    ensures |s| > 1 ==> s[0] != '0'
  {
    if n < 10 then [DigitChar(n)] else DecimalString(n / 10) + [DigitChar(n % 10)]
  }

  /**
   * `Number(s)` for the strings that can name an integer Map key: the empty
   * string is 0, an optional sign followed by decimal digits is that integer.
   * Every other string is NaN here (`None`), which no Map key matches.
   */
  function ParseNumber(s: string): (r: Option<int>)
    ensures s == "" ==> r == Some(0)
    ensures AllDigits(s) ==> r == Some(DigitsValue(s))
    ensures r.Some? && 0 < |s| && IsDigit(s[0]) ==> r.value >= 0
  {
    if |s| == 0 then Some(0)
    else if AllDigits(s) then Some(DigitsValue(s))
    else if 1 < |s| && (s[0] == '-' || s[0] == '+') && AllDigits(s[1..]) then
      Some(if s[0] == '-' then -(DigitsValue(s[1..]) as int) else DigitsValue(s[1..]))
    else None
  }

  lemma {:induction false} DigitsOfDecimalString(n: nat)
    ensures DigitsValue(DecimalString(n)) == n
    decreases n
  {
    if n >= 10 {
      var prefix := DecimalString(n / 10);
      var s := prefix + [DigitChar(n % 10)];
      assert s[..|s| - 1] == prefix;
      DigitsOfDecimalString(n / 10);
    }
  }

  /**
   * A numeric id stored as an object key (`obj[id] = ...` stores `String(id)`)
   * is recovered by `Number(key)`.
   */
  lemma KeyRoundTrip(n: nat)
    ensures ParseNumber(DecimalString(n)) == Some(n)
  {
    DigitsOfDecimalString(n);
  }
}
