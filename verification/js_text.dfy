/** The pieces of ECMAScript string behaviour the source relies on:
    `String.prototype.trim`, `parseInt` with no radix, and number-to-string
    conversion of integers. */
module JsText {
  import opened Wrappers

  /** WhiteSpace or LineTerminator code points: the characters `trim` removes
      and `parseInt` skips (ECMAScript StrWhiteSpaceChar). */
  predicate IsSpace(c: char) {
    || c == '\t' || c == '\U{000B}' || c == '\U{000C}' || c == ' '
    || c == '\U{00A0}' || c == '\U{FEFF}' || c == '\U{1680}'
    || ('\U{2000}' <= c <= '\U{200A}')
    || c == '\U{202F}' || c == '\U{205F}' || c == '\U{3000}'
    || c == '\n' || c == '\r' || c == '\U{2028}' || c == '\U{2029}'
  }

  predicate AllSpace(s: string) {
    forall k :: 0 <= k < |s| ==> IsSpace(s[k])
  }

  /** Number of whitespace characters at the front of `s`. */
  function LeadingSpace(s: string): (n: nat)
    ensures n <= |s|
    ensures AllSpace(s[..n])
    ensures n < |s| ==> !IsSpace(s[n])
  {
    if |s| == 0 || !IsSpace(s[0]) then 0
    else
      var m := LeadingSpace(s[1..]);
      assert s[1..][..m] == s[1..m + 1];
      1 + m
  }

  /** Number of whitespace characters at the end of `s`. */
  function TrailingSpace(s: string): (n: nat)
    ensures n <= |s|
    ensures AllSpace(s[|s| - n..])
    ensures n < |s| ==> !IsSpace(s[|s| - n - 1])
  {
    if |s| == 0 || !IsSpace(s[|s| - 1]) then 0
    else
      var m := TrailingSpace(s[..|s| - 1]);
      var tail := s[|s| - 1 - m..];
      assert AllSpace(tail) by {
        forall k | 0 <= k < |tail|
          ensures IsSpace(tail[k])
        {
          if k < m {
            assert tail[k] == s[..|s| - 1][|s| - 1 - m..][k];
          }
        }
      }
      1 + m
  }

  function TrimStart(s: string): string {
    s[LeadingSpace(s)..]
  }

  function TrimEnd(s: string): string {
    s[..|s| - TrailingSpace(s)]
  }

  /** `s.trim()`: `s` without whitespace at either end. The result is a
      contiguous piece of `s`, everything cut away is whitespace, and the
      result neither starts nor ends with whitespace. */
  function Trim(s: string): (r: string)
    ensures |r| <= |s|
    ensures r == "" || (!IsSpace(r[0]) && !IsSpace(r[|r| - 1]))
    ensures exists i, j :: 0 <= i <= j <= |s| && r == s[i..j] && AllSpace(s[..i]) && AllSpace(s[j..])
  {
    var i := LeadingSpace(s);
    var t := s[i..];
    var n := TrailingSpace(t);
    assert t[..|t| - n] == s[i..|s| - n];
    assert t[|t| - n..] == s[|s| - n..];
    assert n < |t| ==> !IsSpace(t[0]);
    TrimEnd(t)
  }

  /** A string is blank (trims to nothing) exactly when every character is
      whitespace. */
  lemma {:induction false} TrimEmptyIffAllSpace(s: string)
    ensures Trim(s) == "" <==> AllSpace(s)
  {
    var i := LeadingSpace(s);
    var t := s[i..];
    if !AllSpace(s) {
      assert t[0] == s[i];
      assert TrailingSpace(t) < |t|;
    }
  }

  /** Trimming a trimmed string changes nothing. */
  lemma {:induction false} TrimIdempotent(s: string)
    ensures Trim(Trim(s)) == Trim(s)
  {
    var r := Trim(s);
    if |r| > 0 {
      assert LeadingSpace(r) == 0;
      assert r[0..] == r;
      assert TrailingSpace(r) == 0;
    }
  }

  // ---- digits and integer formatting ----

  predicate IsDecimalDigit(c: char) {
    '0' <= c <= '9'
  }

  /** The value of a digit in bases up to 36, or 36 for any other character. */
  function DigitValue(c: char): (v: nat)
    ensures v <= 36
    ensures IsDecimalDigit(c) ==> v == c as int - '0' as int
  {
    if '0' <= c <= '9' then c as int - '0' as int
    else if 'a' <= c <= 'z' then c as int - 'a' as int + 10
    else if 'A' <= c <= 'Z' then c as int - 'A' as int + 10
    else 36
  }

  function DecimalDigit(d: nat): (c: char)
    requires d < 10
    ensures IsDecimalDigit(c) && DigitValue(c) == d
  {
    ['0', '1', '2', '3', '4', '5', '6', '7', '8', '9'][d]
  }

  /** Decimal spelling of a natural number, as `String(n)` gives it. */
  function NatToString(n: nat): (s: string)
    ensures |s| > 0
    ensures forall k :: 0 <= k < |s| ==> IsDecimalDigit(s[k])
  {
    if n < 10 then [DecimalDigit(n)]
    else NatToString(n / 10) + [DecimalDigit(n % 10)]
  }

  /** Decimal spelling of an integer, with a leading '-' when negative. */
  function IntToString(i: int): (s: string)
    ensures |s| > 0
  {
    if i < 0 then "-" + NatToString(-i) else NatToString(i)
  }

  // ---- parseInt ----

  /** Length of the longest prefix of `s` made of digits of the given radix. */
  function DigitRun(s: string, radix: nat): (n: nat)
    ensures n <= |s|
    ensures forall k :: 0 <= k < n ==> DigitValue(s[k]) < radix
    ensures n < |s| ==> DigitValue(s[n]) >= radix
  {
    if |s| == 0 || DigitValue(s[0]) >= radix then 0
    else 1 + DigitRun(s[1..], radix)
  }

  /** The number a run of digits spells in the given radix. */
  function DigitsValue(s: string, radix: nat): nat
  {
    if |s| == 0 then 0
    else DigitsValue(s[..|s| - 1], radix) * radix + DigitValue(s[|s| - 1])
  }

  /** The digits after the sign: a "0x"/"0X" prefix selects radix 16, then
      the longest run of digits is converted; no digits means NaN (`None`). */
  function ParseUnsigned(u: string): Option<nat>
  {
    var hex := |u| >= 2 && u[0] == '0' && (u[1] == 'x' || u[1] == 'X');
    var radix := if hex then 16 else 10;
    var v := if hex then u[2..] else u;
    var n := DigitRun(v, radix);
    if n == 0 then None else Some(DigitsValue(v[..n], radix))
  }

  /** `parseInt(s)` with the radix argument omitted: leading whitespace is
      skipped and one sign is read before the digits. Trailing garbage is
      ignored. Blank text is NaN, and a negative number needs a '-' as the
      first character after the whitespace. */
  function ParseInt(s: string): (r: Option<int>)
    ensures r.Some? ==> |TrimStart(s)| > 0
    ensures r.Some? && r.value < 0 ==> TrimStart(s)[0] == '-'
  {
    var t := TrimStart(s);
    var signed := |t| > 0 && (t[0] == '-' || t[0] == '+');
    var negative := signed && t[0] == '-';
    match ParseUnsigned(if signed then t[1..] else t)
    case None => None
    case Some(m) => Some(if negative then -(m as int) else m)
  }

  lemma {:induction false} DigitsValueOfNatToString(n: nat)
    ensures DigitsValue(NatToString(n), 10) == n
  {
    if n >= 10 {
      var s := NatToString(n);
      assert s[..|s| - 1] == NatToString(n / 10);
      DigitsValueOfNatToString(n / 10);
    }
  }

  /** Distinct numbers have distinct decimal spellings. */
  lemma {:induction false} NatToStringInjectiveAll()
    ensures forall a: nat, b: nat :: NatToString(a) == NatToString(b) ==> a == b
  {
    forall a: nat, b: nat | NatToString(a) == NatToString(b)
      ensures a == b
    {
      DigitsValueOfNatToString(a);
      DigitsValueOfNatToString(b);
    }
  }

  lemma {:induction false} DigitRunOfDigits(u: string)
    requires forall k :: 0 <= k < |u| ==> IsDecimalDigit(u[k])
    ensures DigitRun(u, 10) == |u|
  {
    if |u| > 0 {
      DigitRunOfDigits(u[1..]);
    }
  }

  /** A non-empty run of decimal digits parses to the number it spells: it
      has no "0x" prefix, and the whole of it is read. */
  lemma {:induction false} ParseUnsignedOfDigits(u: string)
    requires |u| > 0 && forall k :: 0 <= k < |u| ==> IsDecimalDigit(u[k])
    ensures ParseUnsigned(u) == Some(DigitsValue(u, 10))
  {
    var hex := |u| >= 2 && u[0] == '0' && (u[1] == 'x' || u[1] == 'X');
    assert !hex by {
      if |u| >= 2 {
        assert IsDecimalDigit(u[1]);
      }
    }
    DigitRunOfDigits(u);
    assert u[..|u|] == u;
  }

  lemma {:induction false} TrimStartUnspaced(s: string)
    requires |s| > 0 && !IsSpace(s[0])
    ensures TrimStart(s) == s
  {
    assert LeadingSpace(s) == 0;
  }

  /** A run of decimal digits parses to the number it spells. */
  lemma {:induction false} ParseIntOfDigits(u: string)
    requires |u| > 0 && forall k :: 0 <= k < |u| ==> IsDecimalDigit(u[k])
    ensures ParseInt(u) == Some(DigitsValue(u, 10))
  {
    ParseUnsignedOfDigits(u);
    assert IsDecimalDigit(u[0]);
    TrimStartUnspaced(u);
  }

  /** Text starting with '-' parses as the negation of what follows it. */
  lemma {:induction false} NegativeParse(s: string)
    requires |s| > 0 && s[0] == '-'
    ensures ParseUnsigned(s[1..]).None? ==> ParseInt(s).None?
    ensures ParseUnsigned(s[1..]).Some? ==> ParseInt(s) == Some(-(ParseUnsigned(s[1..]).value as int))
  {
    TrimStartUnspaced(s);
  }

  /** A '-' followed by a run of decimal digits parses to the negation of
      the number they spell. */
  lemma {:induction false} ParseIntOfNegatedDigits(d: string)
    requires |d| > 0 && forall k :: 0 <= k < |d| ==> IsDecimalDigit(d[k])
    ensures ParseInt("-" + d) == Some(-(DigitsValue(d, 10) as int))
  {
    var m := "-" + d;
    assert m[0] == '-' && m[1..] == d;
    TrimStartUnspaced(m);
    ParseUnsignedOfDigits(d);
    NegativeParse(m);
  }

  lemma {:induction false} ParseIntOfNatToString(n: nat)
    ensures ParseInt(NatToString(n)) == Some(n)
  {
    ParseIntOfDigits(NatToString(n));
    DigitsValueOfNatToString(n);
  }

  lemma {:induction false} ParseIntOfNegatedNatToString(n: nat)
    ensures ParseInt("-" + NatToString(n)) == Some(-(n as int))
  {
    ParseIntOfNegatedDigits(NatToString(n));
    DigitsValueOfNatToString(n);
  }

  /** `parseInt` reads back every integer `String` writes: parsing the decimal
      spelling of `i` yields `i`. */
  lemma {:induction false} ParseIntOfIntToString(i: int)
    ensures ParseInt(IntToString(i)) == Some(i)
  {
    if i < 0 {
      var n: nat := -i;
      ParseIntOfNegatedNatToString(n);
      assert IntToString(i) == "-" + NatToString(n);
    } else {
      ParseIntOfNatToString(i);
      assert IntToString(i) == NatToString(i);
    }
  }

  /** What a form field holds: a number it was given, or the text typed
      into it. */
  datatype Value = Number(n: int) | Str(s: string)

  /** `parseInt(v)`: a number is converted to its decimal spelling first,
      so every integer parses back to itself. */
  function ParseIntValue(v: Value): (r: Option<int>)
    ensures v.Number? ==> r == Some(v.n)
    ensures v.Str? ==> r == ParseInt(v.s)
  {
    match v
    case Number(n) =>
      ParseIntOfIntToString(n);
      ParseInt(IntToString(n))
    case Str(s) => ParseInt(s)
  }
}
