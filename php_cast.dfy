/** PHP's integer cast of a request string, for decimal notation, and the
    decimal rendering of an integer that it undoes. */
module PhpCast {
  predicate IsDigit(ch: char) {
    '0' <= ch <= '9'
  }

  predicate AllDigits(s: string) {
    forall i :: 0 <= i < |s| ==> IsDigit(s[i])
  }

  /** The whitespace PHP skips before a number. */
  predicate IsSpace(ch: char) {
    ch == ' ' || ch == '\t' || ch == '\n' || ch == '\r' || ch == '\U{000B}' || ch == '\U{000C}'
  }

  function SkipSpace(s: string): (r: string)
    ensures |r| <= |s|
    ensures r != [] ==> !IsSpace(r[0])
  {
    if s != [] && IsSpace(s[0]) then SkipSpace(s[1..]) else s
  }

  /** The longest prefix of `s` made of decimal digits. */
  function LeadingDigits(s: string): (r: string)
    ensures AllDigits(r) && |r| <= |s|
    ensures r == s[..|r|]
  {
    if s != [] && IsDigit(s[0]) then [s[0]] + LeadingDigits(s[1..]) else []
  }

  function DigitValue(ch: char): (v: nat)
    requires IsDigit(ch)
    ensures v < 10
  {
    ch as int - '0' as int
  }

  /** The number a string of decimal digits denotes (0 for the empty string). */
  function DigitsValue(s: string): nat
    requires AllDigits(s)
  {
    if s == [] then 0 else DigitsValue(s[..|s| - 1]) * 10 + DigitValue(s[|s| - 1])
  }

  /** `(int)$s`: leading whitespace is skipped, then an optional sign and
      the longest run of digits is read; a string without leading digits
      gives 0. */
  function CastToInt(s: string): int {
    var t := SkipSpace(s);
    if t != [] && t[0] == '-' then -(DigitsValue(LeadingDigits(t[1..])) as int)
    else if t != [] && t[0] == '+' then DigitsValue(LeadingDigits(t[1..]))
    else DigitsValue(LeadingDigits(t))
  }

  /** An integer-typed API parameter as the parameter validator accepts it:
      an optional sign followed by at least one digit. */
  predicate IsIntegerString(s: string) {
    if s != [] && (s[0] == '-' || s[0] == '+') then |s| > 1 && AllDigits(s[1..])
    else s != [] && AllDigits(s)
  }

  function DigitChar(d: nat): (ch: char)
    requires d < 10
    ensures IsDigit(ch) && DigitValue(ch) == d
  {
    '0' + d as char
  }

  /** The decimal rendering of a natural number, without leading zeros. */
  function NatToDecimal(n: nat): (s: string)
    ensures s != [] && AllDigits(s)
  {
    if n < 10 then [DigitChar(n)] else NatToDecimal(n / 10) + [DigitChar(n % 10)]
  }

  /** The decimal rendering of an integer, with a '-' for negative values. */
  function IntToDecimal(n: int): string {
    if n < 0 then "-" + NatToDecimal(-n) else NatToDecimal(n)
  }

  lemma {:induction false} NatToDecimalValue(n: nat)
    ensures DigitsValue(NatToDecimal(n)) == n
  {
    var s := NatToDecimal(n);
    if n >= 10 {
      NatToDecimalValue(n / 10);
      assert s[..|s| - 1] == NatToDecimal(n / 10);
    }
  }

  lemma {:induction false} DigitsAreLeading(s: string)
    requires AllDigits(s)
    ensures LeadingDigits(s) == s
  {
    if s != [] {
      DigitsAreLeading(s[1..]);
    }
  }

  lemma NatCastRoundTrip(m: nat)
    ensures CastToInt(NatToDecimal(m)) == m
  {
    var digits := NatToDecimal(m);
    assert SkipSpace(digits) == digits by {
      assert IsDigit(digits[0]);
    }
    NatToDecimalValue(m);
    DigitsAreLeading(digits);
  }

  lemma NegativeCastRoundTrip(m: nat)
    requires m > 0
    ensures CastToInt("-" + NatToDecimal(m)) == -(m as int)
  {
    var digits := NatToDecimal(m);
    var s := "-" + digits;
    assert SkipSpace(s) == s;
    assert s[1..] == digits;
    NatToDecimalValue(m);
    DigitsAreLeading(digits);
  }

  /** Casting the decimal rendering of any integer gives that integer back,
      and the rendering is one the integer parameter validator accepts. */
  lemma CastRoundTrip(n: int)
    ensures IsIntegerString(IntToDecimal(n))
    ensures CastToInt(IntToDecimal(n)) == n
  {
    if n < 0 {
      NegativeCastRoundTrip(-n);
      assert ("-" + NatToDecimal(-n))[1..] == NatToDecimal(-n);
    } else {
      NatCastRoundTrip(n);
    }
  }
}
