/**
 * parseInt as the debug topic of Places expiration applies it to its data:
 * JavaScript white space, an optional sign, an optional hexadecimal prefix,
 * then the longest run of digits.
 */
module JsParseInt {
  import opened Wrappers

  // ---------------------------------------------------------------------------
  // Parsing

  /** White space skipped by parseInt (the JavaScript StrWhiteSpaceChar set). */
  predicate IsJsWhitespace(c: char)
  {
    c == '\t' || c == '\n' || c == '\r' || c == ' ' ||
    c == '\U{000B}' || c == '\U{000C}' || c == '\U{00A0}' || c == '\U{1680}' ||
    ('\U{2000}' <= c <= '\U{200A}') || c == '\U{2028}' || c == '\U{2029}' ||
    c == '\U{202F}' || c == '\U{205F}' || c == '\U{3000}' || c == '\U{FEFF}'
  }

  function SkipWhitespace(s: string): (r: string)
    ensures |r| <= |s| && r == s[|s| - |r|..]
    ensures r == [] || !IsJsWhitespace(r[0])
  {
    if s != [] && IsJsWhitespace(s[0]) then SkipWhitespace(s[1..]) else s
  }

  /** Value of `c` as a digit in base `radix` (10 or 16). */
  function DigitValue(c: char, radix: nat): (r: Option<nat>)
    ensures r.Some? ==> r.value < radix
  {
    if '0' <= c <= '9' && (c as int) - ('0' as int) < radix then Some((c as int) - ('0' as int))
    else if radix == 16 && 'a' <= c <= 'f' then Some((c as int) - ('a' as int) + 10)
    else if radix == 16 && 'A' <= c <= 'F' then Some((c as int) - ('A' as int) + 10)
    else None
  }

  /** Length of the leading run of digits of `s`. */
  function DigitRun(s: string, radix: nat): (n: nat)
    ensures n <= |s|
    ensures forall i :: 0 <= i < n ==> DigitValue(s[i], radix).Some?
    ensures n < |s| ==> DigitValue(s[n], radix).None?
  {
    if s != [] && DigitValue(s[0], radix).Some? then 1 + DigitRun(s[1..], radix) else 0
  }

  /** Value of a string of digits, most significant first. */
  function DigitsValue(ds: string, radix: nat): nat
    requires forall i :: 0 <= i < |ds| ==> DigitValue(ds[i], radix).Some?
  {
    if ds == [] then 0
    else DigitsValue(ds[..|ds| - 1], radix) * radix + DigitValue(ds[|ds| - 1], radix).value
  }

  /**
   * parseInt(s) without a radix: leading white space, an optional sign, an
   * optional 0x / 0X prefix selecting base 16, then the longest run of digits.
   * None stands for NaN (no digit at all).
   */
  function ParseInt(s: string): Option<int>
  {
    var t := SkipWhitespace(s);
    if t != [] && t[0] == '-' then
      match ParseUnsigned(t[1..])
      case None => None
      case Some(m) => Some(-(m as int))
    else if t != [] && t[0] == '+' then ParseUnsigned(t[1..])
    else ParseUnsigned(t)
  }

  /** The part of parseInt after the sign: an optional 0x / 0X prefix, then the longest run of digits. */
  function ParseUnsigned(u: string): Option<nat>
  {
    var hex := |u| >= 2 && u[0] == '0' && (u[1] == 'x' || u[1] == 'X');
    var radix := if hex then 16 else 10;
    var v := if hex then u[2..] else u;
    var n := DigitRun(v, radix);
    if n == 0 then None else Some(DigitsValue(v[..n], radix))
  }

  /**
   * parseInt reads NaN from blank text and from text whose number does not
   * start with a decimal digit, and a negative number only after a minus sign.
   */
  lemma ParseIntShape(s: string)
    ensures SkipWhitespace(s) == [] ==> ParseInt(s).None?
    ensures ParseInt(s).Some? && ParseInt(s).value < 0 ==> SkipWhitespace(s)[0] == '-'
    ensures var t := SkipWhitespace(s); t != [] && !('0' <= t[0] <= '9' || t[0] == '-' || t[0] == '+') ==> ParseInt(s).None?
  {
  }

  /** The decimal text of a natural number, as a test would write it. */
  function Decimal(n: nat): (s: string)
    ensures |s| >= 1
    ensures forall i :: 0 <= i < |s| ==> '0' <= s[i] <= '9'
  {
    if n < 10 then [('0' as int + n) as char]
    else Decimal(n / 10) + [('0' as int + n % 10) as char]
  }

  lemma {:induction false} DecimalLeadingDigit(n: nat)
    ensures |Decimal(n)| >= 2 ==> Decimal(n)[0] != '0'
  {
    if n >= 10 {
      DecimalLeadingDigit(n / 10);
      assert Decimal(n)[0] == Decimal(n / 10)[0];
    }
  }

  lemma {:induction false} DecimalValue(n: nat)
    ensures DigitRun(Decimal(n), 10) == |Decimal(n)|
    ensures DigitsValue(Decimal(n), 10) == n
  {
    var s := Decimal(n);
    if n >= 10 {
      DecimalValue(n / 10);
      assert s[..|s| - 1] == Decimal(n / 10);
      AllDigitsRun(s, 10);
    }
  }

  lemma {:induction false} AllDigitsRun(s: string, radix: nat)
    requires forall i :: 0 <= i < |s| ==> DigitValue(s[i], radix).Some?
    ensures DigitRun(s, radix) == |s|
  {
    if s != [] {
      AllDigitsRun(s[1..], radix);
    }
  }

  /** parseInt reads back what Decimal writes. */
  lemma ParseIntDecimal(n: nat)
    ensures ParseInt(Decimal(n)) == Some(n)
  {
    var d := Decimal(n);
    ParseUnsignedDecimal(n);
    assert SkipWhitespace(d) == d by {
      assert !IsJsWhitespace(d[0]);
    }
    assert d[0] != '-' && d[0] != '+';
  }

  /** A leading minus sign negates what the rest of the text reads as. */
  lemma ParseIntMinus(u: string)
    ensures ParseUnsigned(u).None? ==> ParseInt("-" + u).None?
    ensures ParseUnsigned(u).Some? ==> ParseInt("-" + u) == Some(-(ParseUnsigned(u).value as int))
  {
    var m := "-" + u;
    assert !IsJsWhitespace(m[0]);
    assert SkipWhitespace(m) == m;
    assert m[1..] == u;
  }

  /** The text "-1" reads as -1. */
  lemma ParseIntMinusOne()
    ensures ParseInt("-1") == Some(-1)
  {
    ParseUnsignedDecimal(1);
    assert Decimal(1) == "1";
    ParseIntMinus("1");
    assert "-" + "1" == "-1";
  }

  lemma ParseUnsignedDecimal(n: nat)
    ensures ParseUnsigned(Decimal(n)) == Some(n)
  {
    var d := Decimal(n);
    DecimalValue(n);
    DecimalLeadingDigit(n);
    assert d[..|d|] == d;
  }
}
