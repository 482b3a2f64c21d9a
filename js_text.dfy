/**
 * The few JavaScript string operations the moderation controller relies on:
 * String.prototype.trim, String(n) for an integer n, String(array) and
 * parseInt(s, 10). Characters are Dafny chars (Unicode scalar values).
 */
module JsText {
  import opened Wrappers

  /** ECMAScript WhiteSpace and LineTerminator: what trim() removes and parseInt skips. */
  predicate IsWhitespace(c: char) {
    c == '\t' || c == '\n' || c == '\U{000B}' || c == '\U{000C}' || c == '\r' || c == ' '
    || c == '\U{00A0}' || c == '\U{1680}' || ('\U{2000}' <= c <= '\U{200A}')
    || c == '\U{2028}' || c == '\U{2029}' || c == '\U{202F}' || c == '\U{205F}'
    || c == '\U{3000}' || c == '\U{FEFF}'
  }

  predicate IsDigit(c: char) {
    '0' <= c <= '9'
  }

  predicate AllDigits(s: string) {
    forall i :: 0 <= i < |s| ==> IsDigit(s[i])
  }

  /** Drops leading white space: the result is a suffix of s, and only white space was dropped. */
  function TrimStart(s: string): (r: string)
    ensures |r| <= |s| && r == s[|s| - |r|..]
    ensures forall i :: 0 <= i < |s| - |r| ==> IsWhitespace(s[i])
    ensures r != [] ==> !IsWhitespace(r[0])
  {
    if s != [] && IsWhitespace(s[0]) then TrimStart(s[1..]) else s
  }

  /** Drops trailing white space: the result is a prefix of s, and only white space was dropped. */
  function TrimEnd(s: string): (r: string)
    ensures |r| <= |s| && r == s[..|r|]
    ensures forall i :: |r| <= i < |s| ==> IsWhitespace(s[i])
    ensures r != [] ==> !IsWhitespace(r[|r| - 1])
  {
    if s != [] && IsWhitespace(s[|s| - 1]) then TrimEnd(s[..|s| - 1]) else s
  }

  /**
   * s.trim(): empty exactly when s is all white space, and otherwise bounded by
   * non-white characters; TrimCharacterised says which slice of s it is.
   */
  function Trim(s: string): (r: string)
    ensures |r| <= |s|
    ensures r != [] ==> !IsWhitespace(r[0]) && !IsWhitespace(r[|r| - 1])
    ensures r == [] <==> forall i :: 0 <= i < |s| ==> IsWhitespace(s[i])
  {
    var t := TrimStart(s);
    var r := TrimEnd(t);
    r
  }

  /** TrimStart drops exactly the white space before the first non-white character at i. */
  lemma {:induction false} TrimStartAt(s: string, i: nat)
    requires i < |s| && !IsWhitespace(s[i])
    requires forall k :: 0 <= k < i ==> IsWhitespace(s[k])
    ensures TrimStart(s) == s[i..]
  {
    if i > 0 {
      assert IsWhitespace(s[0]);
      assert forall k :: 0 <= k < i - 1 ==> s[1..][k] == s[k + 1];
      TrimStartAt(s[1..], i - 1);
      assert s[1..][i - 1..] == s[i..];
    }
  }

  /** TrimEnd of s[i..] drops exactly the white space after the last non-white character at j - 1. */
  lemma TrimEndAt(s: string, i: nat, j: nat)
    requires i < j <= |s| && !IsWhitespace(s[j - 1])
    requires forall k :: j <= k < |s| ==> IsWhitespace(s[k])
    ensures TrimEnd(s[i..]) == s[i..j]
  {
    var t := s[i..];
    assert forall k :: j - i <= k < |t| ==> t[k] == s[k + i];
    assert t[..j - i] == s[i..j];
  }

  /**
   * trim() removes the outer white space and nothing else: if s[i..j] is
   * bounded by non-white characters and only white space lies outside it,
   * then s.trim() is s[i..j].
   */
  lemma TrimCharacterised(s: string, i: nat, j: nat)
    requires i < j <= |s|
    requires !IsWhitespace(s[i]) && !IsWhitespace(s[j - 1])
    requires forall k :: 0 <= k < i ==> IsWhitespace(s[k])
    requires forall k :: j <= k < |s| ==> IsWhitespace(s[k])
    ensures Trim(s) == s[i..j]
  {
    TrimStartAt(s, i);
    TrimEndAt(s, i, j);
  }

  /** White space around a string bounded by non-white characters is exactly what trim() removes. */
  lemma TrimPadded(before: string, x: string, after: string)
    requires forall k :: 0 <= k < |before| ==> IsWhitespace(before[k])
    requires forall k :: 0 <= k < |after| ==> IsWhitespace(after[k])
    requires x != [] && !IsWhitespace(x[0]) && !IsWhitespace(x[|x| - 1])
    ensures Trim(before + x + after) == x
  {
    var s := before + x + after;
    var i, j := |before|, |before| + |x|;
    assert s[i] == x[0] && s[j - 1] == x[|x| - 1];
    assert forall k :: 0 <= k < i ==> s[k] == before[k];
    assert forall k :: j <= k < |s| ==> s[k] == after[k - j];
    TrimCharacterised(s, i, j);
    assert s[i..j] == x;
  }

  function DigitChar(d: int): (c: char)
    requires 0 <= d < 10
    ensures IsDigit(c)
  {
    ('0' as int + d) as char
  }

  function DigitValue(c: char): (d: nat)
    requires IsDigit(c)
    ensures d < 10 && DigitChar(d) == c
  {
    c as int - '0' as int
  }

  /** String(n) for n >= 0: decimal digits, most significant first, no leading zero. */
  function NatToString(n: nat): (r: string)
    ensures r != [] && AllDigits(r)
    ensures r[0] == '0' <==> n == 0
    decreases n
  {
    if n < 10 then [DigitChar(n)] else NatToString(n / 10) + [DigitChar(n % 10)]
  }

  /** String(n) for an integer n: a minus sign before the digits of -n when n is negative. */
  function IntToString(n: int): (r: string)
    ensures r != []
    ensures n < 0 <==> r[0] == '-'
  {
    if n < 0 then "-" + NatToString(-n) else NatToString(n)
  }

  /** The value of a string of decimal digits (the empty string has value 0). */
  function DigitsValue(ds: string): nat
    requires AllDigits(ds)
  {
    if ds == [] then 0 else DigitsValue(ds[..|ds| - 1]) * 10 + DigitValue(ds[|ds| - 1])
  }

  /** The longest prefix of s made of decimal digits. */
  function LeadingDigits(s: string): (r: string)
    ensures |r| <= |s| && r == s[..|r|] && AllDigits(r)
    ensures |r| < |s| ==> !IsDigit(s[|r|])
  {
    if s != [] && IsDigit(s[0]) then [s[0]] + LeadingDigits(s[1..]) else []
  }

  /**
   * parseInt(s, 10): leading white space is skipped, then one optional sign,
   * then the longest run of decimal digits; None stands for NaN (no digit at all).
   */
  function ParseInt(s: string): (r: Option<int>)
    ensures r.None? <==> LeadingDigits(Unsigned(TrimStart(s))) == []
  {
    var t := TrimStart(s);
    var magnitude := ParseDigits(Unsigned(t));
    if magnitude.None? then None
    else if t[0] == '-' then Some(-(magnitude.value as int))
    else Some(magnitude.value as int)
  }

  /** The value of the leading run of digits of u; None when u does not start with a digit. */
  function ParseDigits(u: string): (r: Option<nat>)
    ensures r.None? <==> LeadingDigits(u) == []
  {
    var ds := LeadingDigits(u);
    if ds == [] then None else Some(DigitsValue(ds))
  }

  /** t without its sign character, if it starts with one. */
  function Unsigned(t: string): (u: string)
    ensures |u| <= |t|
  {
    if t != [] && (t[0] == '-' || t[0] == '+') then t[1..] else t
  }

  /** String(xs) for an array of strings: the elements joined by commas. */
  function JoinWithCommas(xs: seq<string>): (r: string)
    ensures |xs| == 1 ==> r == xs[0]
    ensures |xs| > 1 ==> |r| > |xs[0]| && r[..|xs[0]|] == xs[0] && r[|xs[0]|] == ','
  {
    if xs == [] then ""
    else if |xs| == 1 then xs[0]
    else xs[0] + "," + JoinWithCommas(xs[1..])
  }

  lemma {:induction false} DigitsValueOfNatToString(n: nat)
    ensures DigitsValue(NatToString(n)) == n
    decreases n
  {
    if n >= 10 {
      var a := NatToString(n / 10);
      var r := NatToString(n);
      assert r == a + [DigitChar(n % 10)];
      assert r[..|r| - 1] == a;
      DigitsValueOfNatToString(n / 10);
    }
  }

  lemma TrimStartKeeps(s: string)
    requires s != [] && !IsWhitespace(s[0])
    ensures TrimStart(s) == s
  {
  }

  lemma DigitIsNotWhitespace(c: char)
    requires IsDigit(c)
    ensures !IsWhitespace(c)
  {
  }

  /** The run of digits stops where a non-digit follows: LeadingDigits(d + t) == d. */
  lemma {:induction false} LeadingDigitsStops(d: string, t: string)
    requires AllDigits(d)
    requires t == [] || !IsDigit(t[0])
    ensures LeadingDigits(d + t) == d
  {
    if d != [] {
      assert (d + t)[1..] == d[1..] + t;
      LeadingDigitsStops(d[1..], t);
    }
  }

  /** A digit string followed by a non-digit has the value of that digit string. */
  lemma ParseDigitsStops(d: string, t: string)
    requires d != [] && AllDigits(d)
    requires t == [] || !IsDigit(t[0])
    ensures ParseDigits(d + t) == Some(DigitsValue(d))
  {
    LeadingDigitsStops(d, t);
  }

  /** The digits of n >= 0 followed by a non-digit: parseInt reads n. */
  lemma ParseIntOfNatDigits(n: nat, t: string)
    requires t == [] || !IsDigit(t[0])
    ensures ParseInt(IntToString(n) + t) == Some(n)
  {
    var d := NatToString(n);
    var s := IntToString(n) + t;
    assert s == d + t && s[0] == d[0];
    DigitIsNotWhitespace(d[0]);
    TrimStartKeeps(s);
    assert Unsigned(s) == s;
    ParseDigitsStops(d, t);
    DigitsValueOfNatToString(n);
    assert ParseDigits(Unsigned(TrimStart(s))) == Some(n);
  }

  /** A minus sign and the digits of -n followed by a non-digit: parseInt reads n. */
  lemma ParseIntOfNegativeDigits(n: int, t: string)
    requires n < 0
    requires t == [] || !IsDigit(t[0])
    ensures ParseInt(IntToString(n) + t) == Some(n)
  {
    var d := NatToString(-n);
    var s := IntToString(n) + t;
    assert s == "-" + (d + t);
    TrimStartKeeps(s);
    assert Unsigned(s) == d + t;
    ParseDigitsStops(d, t);
    DigitsValueOfNatToString(-n);
    assert ParseDigits(Unsigned(TrimStart(s))) == Some(-n);
  }

  /**
   * parseInt reads String(n) back as n, whatever non-digit text follows it:
   * `parseInt("12,5", 10)` is 12.
   */
  lemma ParseIntFollowedBy(n: int, t: string)
    requires t == [] || !IsDigit(t[0])
    ensures ParseInt(IntToString(n) + t) == Some(n)
  {
    if n < 0 {
      ParseIntOfNegativeDigits(n, t);
    } else {
      ParseIntOfNatDigits(n, t);
    }
  }

  /** parseInt(String(n), 10) == n for every integer n. */
  lemma ParseIntOfIntToString(n: int)
    ensures ParseInt(IntToString(n)) == Some(n)
  {
    ParseIntFollowedBy(n, []);
    assert IntToString(n) + [] == IntToString(n);
  }
}
