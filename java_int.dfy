/**
 * The two conversions between a Java `int` and its decimal text that the
 * discovery code relies on: `String.valueOf(int)` when a participant
 * publishes its port, and `Integer.valueOf(String)` when a spectator reads it
 * back. `String.format("%d", int)` prints the same text only under a locale
 * whose digits are the ASCII ones; the instance name relies on that.
 */
module JavaInt {
  import opened Wrappers

  const MIN_INT: int := -0x8000_0000
  const MAX_INT: int := 0x7fff_ffff

  /** A Java `int`. */
  type Int32 = n: int | MIN_INT <= n <= MAX_INT

  predicate IsDigit(c: char) {
    '0' <= c <= '9'
  }

  predicate AllDigits(s: string) {
    forall i :: 0 <= i < |s| ==> IsDigit(s[i])
  }

  function DigitChar(d: nat): (c: char)
    requires d < 10
    ensures IsDigit(c)
  {
    (('0' as int) + d) as char
  }

  function DigitValue(c: char): (d: nat)
    requires IsDigit(c)
    ensures d < 10
  {
    c as int - '0' as int
  }

  /** The decimal digits of `n`, most significant first, with no leading zero. */
  function Digits(n: nat): (s: string)
  {
    if n < 10 then [DigitChar(n)] else Digits(n / 10) + [DigitChar(n % 10)]
  }

  /** The number a string of decimal digits denotes (leading zeros allowed). */
  function DigitsValue(s: string): nat
    requires AllDigits(s)
  {
    if s == [] then 0 else 10 * DigitsValue(s[..|s| - 1]) + DigitValue(s[|s| - 1])
  }

  /** `String.valueOf(n)`: an optional minus sign followed by the digits of |n|. */
  function FormatInt(n: int): (s: string)
    ensures |s| > 0 && (s[0] == '-' <==> n < 0)
    ensures AllDigits(if n < 0 then s[1..] else s)
  {
    DigitsDenote(if n < 0 then -n else n);
    if n < 0 then "-" + Digits(-n) else Digits(n)
  }

  /**
   * `Integer.valueOf(s)`: an optional `-` or `+` followed by at least one
   * decimal digit, whose value fits a Java `int`; anything else is the
   * `NumberFormatException` case, `None` here.
   */
  function ParseInt(s: string): (r: Option<Int32>)
    ensures r.Some? ==> |s| > 0 && IsDigit(s[|s| - 1])
    ensures r.Some? && r.value < 0 ==> s[0] == '-'
  {
    if |s| == 0 then None
    else
      var body := if s[0] == '-' || s[0] == '+' then s[1..] else s;
      if |body| == 0 || !AllDigits(body) then None
      else
        var v: int := if s[0] == '-' then -(DigitsValue(body) as int) else DigitsValue(body);
        if MIN_INT <= v <= MAX_INT then Some(v) else None
  }

  /** The digits of `n` are non-empty, all digits, and denote `n`. */
  lemma {:induction false} DigitsDenote(n: nat)
    ensures |Digits(n)| > 0 && AllDigits(Digits(n))
    ensures DigitsValue(Digits(n)) == n
  {
    if n >= 10 {
      DigitsDenote(n / 10);
      var s := Digits(n);
      assert s[..|s| - 1] == Digits(n / 10);
    }
  }

  /** Printing an `int` in decimal and parsing it back gives the same `int`. */
  lemma ParseFormatRoundTrip(n: Int32)
    ensures ParseInt(FormatInt(n)) == Some(n)
  {
    var m: int := n;
    var s := FormatInt(n);
    if m < 0 {
      DigitsDenote(-m);
      assert s[0] == '-' && s[1..] == Digits(-m);
    } else {
      DigitsDenote(m);
      assert s == Digits(m);
      assert IsDigit(s[0]);
    }
  }

  /** Distinct numbers print differently. */
  lemma FormatIntInjective(a: int, b: int)
    ensures FormatInt(a) == FormatInt(b) <==> a == b
  {
    if FormatInt(a) == FormatInt(b) {
      var ma, mb := if a < 0 then -a else a, if b < 0 then -b else b;
      DigitsDenote(ma);
      DigitsDenote(mb);
      if a < 0 {
        assert FormatInt(a)[1..] == Digits(ma);
      }
      if b < 0 {
        assert FormatInt(b)[1..] == Digits(mb);
      }
      assert (a < 0) == (b < 0) by {
        assert FormatInt(a)[0] == '-' <==> a < 0;
        assert FormatInt(b)[0] == '-' <==> b < 0;
      }
    }
  }

  /** The printed form of a number is a sign and digits only, never `_`. */
  lemma FormatIntHasNoUnderscore(n: int)
    ensures '_' !in FormatInt(n)
  {
    DigitsDenote(if n < 0 then -n else n);
  }
}
