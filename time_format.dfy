/** The millisecond-to-display formatter of utils/timeFormat.ts.

    Milliseconds are exact reals: JavaScript numbers are doubles, but every
    value the timer produces is a finite decimal and the formatter only
    floors, divides by constants and takes a remainder, so exact arithmetic
    describes what the source computes on the values it sees.
 */
module TimeFormat {

  /** The pair `[totalSeconds, tenths]` returned by `parseSeconds`. */
  datatype Split = Split(seconds: int, tenths: int)

  /** The quotient truncated toward zero that JavaScript's `%` divides
      by: the integer part of `x`, on the side of zero. */
  function Trunc(x: real): (r: int)
    ensures 0.0 <= x ==> r as real <= x < r as real + 1.0
    ensures x < 0.0 ==> r as real - 1.0 < x <= r as real
  {
    if x >= 0.0 then x.Floor else -((-x).Floor)
  }

  /** JavaScript `x % 10`, the only remainder the formatter takes: the
      remainder of a division truncated toward zero, so it has the sign
      of `x`. */
  function RemTen(x: real): (r: real)
    ensures 0.0 <= x ==> 0.0 <= r < 10.0
    ensures x < 0.0 ==> -10.0 < r <= 0.0
    ensures ((x - r) / 10.0).Floor as real == (x - r) / 10.0
  {
    x - 10.0 * Trunc(x / 10.0) as real
  }

  /** `parseSeconds(ms)`: whole seconds by floor division and the tenths
      digit as `floor((ms / 100) % 10)`. For a non-negative input the
      split truncates: the seconds and tenths it names are at most `ms`,
      and less than 100 ms below it. */
  function ParseSeconds(ms: real): (r: Split)
    ensures 0.0 <= ms ==> 0 <= r.tenths <= 9
    ensures 0.0 <= ms ==>
      r.seconds as real * 1000.0 + r.tenths as real * 100.0 <= ms
      < r.seconds as real * 1000.0 + r.tenths as real * 100.0 + 100.0
    ensures ms < 0.0 ==> r.seconds < 0 && r.tenths <= 0
  {
    var seconds := (ms / 1000.0).Floor;
    var tenths := RemTen(ms / 100.0).Floor;
    if 0.0 <= ms then
      assert Trunc(ms / 100.0 / 10.0) == seconds;
      assert RemTen(ms / 100.0) == ms / 100.0 - 10.0 * seconds as real;
      Split(seconds, tenths)
    else
      Split(seconds, tenths)
  }

  /** `Math.max(n, 0)` on an integer. */
  function ClampZero(n: int): (r: nat)
    ensures r == n || (n < 0 && r == 0)
  {
    if n > 0 then n else 0
  }

  predicate IsDigit(c: char) {
    '0' <= c <= '9'
  }

  predicate IsDigits(s: string) {
    forall i | 0 <= i < |s| :: IsDigit(s[i])
  }

  function DigitChar(d: int): (c: char)
    requires 0 <= d <= 9
    ensures IsDigit(c)
  {
    ('0' as int + d) as char
  }

  function DigitValue(c: char): (d: int)
    requires IsDigit(c)
    ensures 0 <= d <= 9
  {
    c as int - '0' as int
  }

  /** The number a string of decimal digits denotes. */
  function DigitsValue(s: string): nat
    requires IsDigits(s)
  {
    if s == [] then 0 else DigitsValue(s[..|s| - 1]) * 10 + DigitValue(s[|s| - 1])
  }

  /** How JavaScript renders a non-negative integer inside a template
      string: its decimal digits, with no sign and no leading zero. */
  function DecimalString(n: nat): (r: string)
    ensures |r| >= 1 && IsDigits(r)
    ensures r[0] == '0' ==> r == "0"
    ensures DigitsValue(r) == n
  {
    if n < 10 then
      [DigitChar(n)]
    else
      var prefix := DecimalString(n / 10);
      var r := prefix + [DigitChar(n % 10)];
      assert r[..|r| - 1] == prefix;
      r
  }

  /** The shape of every string `formatTime` produces: one or more
      digits, a dot, exactly one digit. */
  predicate IsDisplay(r: string) {
    |r| >= 3 && IsDigits(r[..|r| - 2]) && r[|r| - 2] == '.' && IsDigit(r[|r| - 1])
  }

  /** A display string read back as a count of tenths of a second. */
  function DisplayTenths(r: string): nat
    requires IsDisplay(r)
  {
    DigitsValue(r[..|r| - 2]) * 10 + DigitValue(r[|r| - 1])
  }

  /** `formatTime(ms)`: both parts of the split clamped at zero and
      rendered as `"<seconds>.<tenths>"`. A negative input shows as
      `"0.0"`; a non-negative one shows the tenths of a second it holds,
      truncated, never rounded up, and the seconds carry no leading zero. */
  function FormatTime(ms: real): (r: string)
    ensures IsDisplay(r)
    ensures r[0] == '0' ==> r[1] == '.'
    ensures '-' !in r
    ensures ms < 0.0 ==> r == "0.0"
    ensures 0.0 <= ms ==>
      DisplayTenths(r) as real * 100.0 <= ms < DisplayTenths(r) as real * 100.0 + 100.0
  {
    var p := ParseSeconds(ms);
    var secs := DecimalString(ClampZero(p.seconds));
    var tenths := DecimalString(ClampZero(p.tenths));
    if 0.0 <= ms then
      assert tenths == [DigitChar(p.tenths)];
      var r := secs + "." + tenths;
      assert r[..|r| - 2] == secs;
      r
    else
      assert secs == "0" && tenths == "0";
      secs + "." + tenths
  }

  /** The split is the only one with a tenths digit in 0..9 that
      truncates `ms`: `parseSeconds` is determined by these bounds. */
  lemma ParseSecondsUnique(ms: real, s: int, t: int)
    requires 0.0 <= ms && 0 <= t <= 9
    requires s as real * 1000.0 + t as real * 100.0 <= ms
    requires ms < s as real * 1000.0 + t as real * 100.0 + 100.0
    ensures ParseSeconds(ms) == Split(s, t)
  {
    var p := ParseSeconds(ms);
    assert s as real * 1000.0 <= ms < s as real * 1000.0 + 1000.0;
    assert p.seconds == s;
  }

  /** The seconds are `floor(ms / 1000)` and the tenths digit is the last
      decimal digit of `floor(ms / 100)`. */
  lemma ParseSecondsDigits(ms: real)
    requires 0.0 <= ms
    ensures ParseSeconds(ms).seconds == (ms / 1000.0).Floor
    ensures ParseSeconds(ms).tenths == (ms / 100.0).Floor % 10
  {
    var p := ParseSeconds(ms);
    var h := (ms / 100.0).Floor;
    assert (p.seconds * 10 + p.tenths) as real <= ms / 100.0 < (p.seconds * 10 + p.tenths + 1) as real;
    assert h == p.seconds * 10 + p.tenths;
  }

  /** The display reads back as `floor(ms / 1000)` seconds and the tenths
      digit of `floor(ms / 100)`. */
  lemma FormatTimeReadsBack(ms: real)
    requires 0.0 <= ms
    ensures var r := FormatTime(ms);
      DigitsValue(r[..|r| - 2]) == (ms / 1000.0).Floor &&
      DigitValue(r[|r| - 1]) == (ms / 100.0).Floor % 10
  {
    var r := FormatTime(ms);
    var p := ParseSeconds(ms);
    ParseSecondsDigits(ms);
    var secs := DecimalString(p.seconds);
    var tenths := DecimalString(p.tenths);
    assert tenths == [DigitChar(p.tenths)];
    assert r == secs + "." + tenths;
    assert r[..|r| - 2] == secs;
  }

  /** Concrete values: the start and end of a rep for 100 and 60 reps,
      and a small negative overshoot. */
  lemma FormatTimeExamples()
    ensures FormatTime(0.0) == "0.0"
    ensures FormatTime(20000.0) == "20.0"
    ensures FormatTime(12000.0) == "12.0"
    ensures FormatTime(-5.0) == "0.0"
  {
    assert ParseSeconds(20000.0) == Split(20, 0) by {
      ParseSecondsUnique(20000.0, 20, 0);
    }
    assert DecimalString(20) == "20";
    assert ParseSeconds(12000.0) == Split(12, 0) by {
      ParseSecondsUnique(12000.0, 12, 0);
    }
    assert DecimalString(12) == "12";
  }
}
