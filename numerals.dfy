/**
 * Integers as text: the `parseInt` that the delete-room route applies to its
 * path parameter, and the decimal rendering that a template literal such as
 * `studentName${i}` gives a non-negative integer below 10^21.
 */
module Numerals {
  import opened Wrappers

  /** The characters JavaScript's `parseInt` skips before the number. */
  predicate IsSpace(c: char)
  {
    var k := c as int;
    || k == 0x20 || 0x09 <= k <= 0x0D || k == 0xA0 || k == 0x1680
    || 0x2000 <= k <= 0x200A || k == 0x2028 || k == 0x2029
    || k == 0x202F || k == 0x205F || k == 0x3000 || k == 0xFEFF
  }

  /** The value of `c` as a digit of radix up to 36; 36 when `c` is no digit at all. */
  function DigitValue(c: char): (v: nat)
    ensures v <= 36
  {
    if '0' <= c <= '9' then c as int - '0' as int
    else if 'a' <= c <= 'z' then c as int - 'a' as int + 10
    else if 'A' <= c <= 'Z' then c as int - 'A' as int + 10
    else 36
  }

  predicate IsDigitIn(c: char, radix: nat)
  {
    DigitValue(c) < radix
  }

  /** The decimal digit for `d`. */
  function Digit(d: nat): (c: char)
    requires d < 10
    ensures IsDigitIn(c, 10) && DigitValue(c) == d
  {
    (48 + d) as char
  }

  /** `s` without its leading white space. */
  function SkipSpace(s: string): (t: string)
    ensures |t| <= |s| && t == s[|s| - |t|..]
    ensures t != [] ==> !IsSpace(t[0])
  {
    if s != [] && IsSpace(s[0]) then SkipSpace(s[1..]) else s
  }

  /** The length of the run of radix-`radix` digits that `s` starts with. */
  function DigitRun(s: string, radix: nat): (n: nat)
    ensures n <= |s|
    ensures forall j :: 0 <= j < n ==> IsDigitIn(s[j], radix)
    ensures n < |s| ==> !IsDigitIn(s[n], radix)
  {
    if s != [] && IsDigitIn(s[0], radix) then 1 + DigitRun(s[1..], radix) else 0
  }

  /** The number that the digits `d` denote in radix `radix`, most significant first. */
  function ValueOf(d: string, radix: nat): nat
  {
    if d == [] then 0
    else radix * ValueOf(d[..|d| - 1], radix) + DigitValue(d[|d| - 1])
  }

  /**
   * The unsigned part of `parseInt`: a "0x" or "0X" prefix switches to radix
   * 16, and the longest run of digits that follows is the number; no digit
   * there gives NaN, here `None`.
   */
  function ParseMagnitude(u: string): Option<nat>
  {
    var hex := |u| >= 2 && u[0] == '0' && (u[1] == 'x' || u[1] == 'X');
    var radix := if hex then 16 else 10;
    var digits := if hex then u[2..] else u;
    var n := DigitRun(digits, radix);
    if n == 0 then None else Some(ValueOf(digits[..n], radix))
  }

  /** The text after one leading sign, if there is one. */
  function StripSign(t: string): (u: string)
    ensures |u| <= |t| && u == t[|t| - |u|..]
  {
    if t != [] && (t[0] == '-' || t[0] == '+') then t[1..] else t
  }

  /** `parseInt(s)` with no radix: white space is skipped, one sign is taken, then the magnitude. */
  function ParseInt(s: string): Option<int>
  {
    var t := SkipSpace(s);
    match ParseMagnitude(StripSign(t))
    case None => None
    case Some(v) => Some(if t != [] && t[0] == '-' then -(v as int) else v as int)
  }

  /**
   * The decimal text of `n`, as JavaScript renders a non-negative integer
   * below 10^21 (from there on it switches to exponent notation); here it is
   * applied to slot numbers and list positions only.
   */
  function DecimalString(n: nat): (s: string)
    ensures s != []
    ensures forall j :: 0 <= j < |s| ==> IsDigitIn(s[j], 10)
    ensures n > 0 ==> s[0] != '0'
    ensures n < 10 ==> s == [Digit(n)]
  {
    if n < 10 then [Digit(n)] else DecimalString(n / 10) + [Digit(n % 10)]
  }

  lemma {:induction false} DecimalStringValue(n: nat)
    ensures ValueOf(DecimalString(n), 10) == n
  {
    if n >= 10 {
      var s := DecimalString(n);
      DecimalStringValue(n / 10);
      assert s[..|s| - 1] == DecimalString(n / 10);
    }
  }

  lemma {:induction false} DigitRunOfDigits(d: string, rest: string, radix: nat)
    requires forall j :: 0 <= j < |d| ==> IsDigitIn(d[j], radix)
    requires rest == [] || !IsDigitIn(rest[0], radix)
    ensures DigitRun(d + rest, radix) == |d|
  {
    if d != [] {
      assert (d + rest)[1..] == d[1..] + rest;
      DigitRunOfDigits(d[1..], rest, radix);
    }
  }

  /** Decimal text followed by text that does not continue it has that number as magnitude. */
  lemma MagnitudeOfDecimal(n: nat, rest: string)
    requires rest == [] || !IsDigitIn(rest[0], 10)
    requires n == 0 && rest != [] ==> rest[0] != 'x' && rest[0] != 'X'
    ensures ParseMagnitude(DecimalString(n) + rest) == Some(n)
  {
    var d := DecimalString(n);
    var s := d + rest;
    assert !(|s| >= 2 && s[0] == '0' && (s[1] == 'x' || s[1] == 'X')) by {
      if |s| >= 2 && s[0] == '0' {
        assert d[0] == '0' && n == 0;
        assert s[1] == rest[0];
      }
    }
    DigitRunOfDigits(d, rest, 10);
    assert s[..|d|] == d;
    DecimalStringValue(n);
  }

  lemma DigitIsNotSpace(c: char)
    requires IsDigitIn(c, 16)
    ensures !IsSpace(c) && c != '-' && c != '+'
  {
  }

  /** Text that starts with neither white space nor a sign is read as a magnitude. */
  lemma ParseUnsigned(s: string)
    requires s != [] && !IsSpace(s[0]) && s[0] != '-' && s[0] != '+'
    ensures ParseInt(s) == if ParseMagnitude(s).Some? then Some(ParseMagnitude(s).value as int) else None
  {
    assert SkipSpace(s) == s;
  }

  /**
   * Decimal text read back by `parseInt` gives the number again, also when
   * other text follows it that does not continue the number.
   */
  lemma ParseDecimal(n: nat, rest: string)
    requires rest == [] || !IsDigitIn(rest[0], 10)
    requires n == 0 && rest != [] ==> rest[0] != 'x' && rest[0] != 'X'
    ensures ParseInt(DecimalString(n) + rest) == Some(n)
  {
    var s := DecimalString(n) + rest;
    assert s[0] == DecimalString(n)[0];
    DigitIsNotSpace(s[0]);
    ParseUnsigned(s);
    MagnitudeOfDecimal(n, rest);
  }

  /** Text that starts with a minus sign and no white space is read as a negated magnitude. */
  lemma ParseNegative(s: string, n: nat)
    requires s != [] && s[0] == '-' && ParseMagnitude(s[1..]) == Some(n)
    ensures ParseInt(s) == Some(-(n as int))
  {
    assert !IsSpace(s[0]);
    assert SkipSpace(s) == s;
    assert StripSign(s) == s[1..];
  }

  /** A minus sign in front of decimal text gives the negated number. */
  lemma ParseNegativeDecimal(n: nat)
    ensures ParseInt("-" + DecimalString(n)) == Some(-(n as int))
  {
    var d := DecimalString(n);
    var s := "-" + d;
    MagnitudeOfDecimal(n, []);
    assert s[1..] == d + [];
    ParseNegative(s, n);
  }

  /** Text with no decimal digit has no magnitude: a hex prefix needs its leading "0". */
  lemma MagnitudeOfNoDigits(u: string)
    requires forall j :: 0 <= j < |u| ==> !IsDigitIn(u[j], 10)
    ensures ParseMagnitude(u) == None
  {
    if u != [] {
      assert !IsDigitIn(u[0], 10);
    }
  }

  /** Text that holds no decimal digit, such as "NaN", "abc" or "undefined", parses to NaN. */
  lemma NoDigitIsNaN(s: string)
    requires forall j :: 0 <= j < |s| ==> !IsDigitIn(s[j], 10)
    ensures ParseInt(s) == None
  {
    var t := SkipSpace(s);
    var u := StripSign(t);
    assert u == s[|s| - |u|..];
    assert forall j :: 0 <= j < |u| ==> u[j] == s[|s| - |u| + j];
    MagnitudeOfNoDigits(u);
    ParseIntNaNIffNoMagnitude(s);
  }

  /** `parseInt` gives NaN exactly when the text after white space and sign has no magnitude. */
  lemma ParseIntNaNIffNoMagnitude(s: string)
    ensures ParseInt(s) == None <==> ParseMagnitude(StripSign(SkipSpace(s))) == None
  {
  }

  /** Exactly when a text has no magnitude. */
  lemma MagnitudeNoneExactly(u: string)
    ensures ParseMagnitude(u) == None <==>
      || u == []
      || !IsDigitIn(u[0], 10)
      || (|u| >= 2 && u[0] == '0' && (u[1] == 'x' || u[1] == 'X') && (|u| == 2 || !IsDigitIn(u[2], 16)))
  {
    if |u| >= 2 && u[0] == '0' && (u[1] == 'x' || u[1] == 'X') {
      assert u[2..] == [] <==> |u| == 2;
      if |u| > 2 {
        assert u[2..][0] == u[2];
      }
    }
  }

  /**
   * Exactly when `parseInt` gives NaN: after the white space and the sign
   * there is no decimal digit, or there is a "0x"/"0X" prefix with no hex
   * digit after it.
   */
  lemma ParseIntNaNExactly(s: string)
    ensures var u := StripSign(SkipSpace(s));
      ParseInt(s) == None <==>
        || u == []
        || !IsDigitIn(u[0], 10)
        || (|u| >= 2 && u[0] == '0' && (u[1] == 'x' || u[1] == 'X') && (|u| == 2 || !IsDigitIn(u[2], 16)))
  {
    ParseIntNaNIffNoMagnitude(s);
    MagnitudeNoneExactly(StripSign(SkipSpace(s)));
  }
}
