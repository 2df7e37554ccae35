/** Decimal rendering of integers, as Python's f-string interpolation of an
    `int` produces it (an optional '-' followed by the digits, no leading
    zeros), and a reader that recovers the integer from the front of a text.
    The reader is not part of the scripts: it shows that the rendered post
    lines and e-mail blocks carry the score exactly. */
module Decimal {

  datatype Option<T> = None | Some(value: T)

  predicate IsDigit(c: char) {
    '0' <= c <= '9'
  }

  function DigitChar(d: nat): (c: char)
    requires d < 10
    ensures IsDigit(c)
  {
    "0123456789"[d]
  }

  /** The value of a digit character (0 for any other character). */
  function DigitValue(c: char): nat {
    if IsDigit(c) then c as int - '0' as int else 0
  }

  predicate AllDigits(s: string) {
    forall i :: 0 <= i < |s| ==> IsDigit(s[i])
  }

  /** The decimal digits of `n`, most significant first. */
  function NatToString(n: nat): (s: string)
    ensures |s| > 0 && AllDigits(s)
    decreases n
  {
    if n < 10 then [DigitChar(n)] else NatToString(n / 10) + [DigitChar(n % 10)]
  }

  /** `str(n)` for a Python `int`. */
  function IntToString(n: int): string {
    if n < 0 then "-" + NatToString(-n) else NatToString(n)
  }

  /** The value of a run of decimal digits. */
  function DigitsValue(s: string): nat {
    if s == [] then 0 else DigitsValue(s[..|s| - 1]) * 10 + DigitValue(s[|s| - 1])
  }

  /** Length of the longest prefix of `s` made of digits. */
  function DigitRun(s: string): (k: nat)
    ensures k <= |s|
  {
    if s == [] || !IsDigit(s[0]) then 0 else 1 + DigitRun(s[1..])
  }

  /** Reads an optional '-' and the longest run of digits after it from the
      front of `s`; None when there is no digit there. */
  function ParseInt(s: string): Option<int> {
    if |s| > 0 && s[0] == '-' then Negated(ParseNat(s[1..])) else AsInt(ParseNat(s))
  }

  function Negated(o: Option<nat>): Option<int> {
    match o
    case None => None
    case Some(v) => Some(-(v as int))
  }

  function AsInt(o: Option<nat>): Option<int> {
    match o
    case None => None
    case Some(v) => Some(v as int)
  }

  /** Reads the longest run of digits from the front of `s`. */
  function ParseNat(s: string): Option<nat> {
    var k := DigitRun(s);
    if k == 0 then None else Some(DigitsValue(s[..k]))
  }

  lemma DigitCharValue(d: nat)
    requires d < 10
    ensures DigitValue(DigitChar(d)) == d
  {
  }

  lemma {:induction false} NatToStringValue(n: nat)
    ensures DigitsValue(NatToString(n)) == n
    decreases n
  {
    if n < 10 {
      DigitCharValue(n);
    } else {
      var s := NatToString(n);
      assert s[..|s| - 1] == NatToString(n / 10);
      NatToStringValue(n / 10);
      DigitCharValue(n % 10);
    }
  }

  lemma {:induction false} DigitRunOfDigits(d: string, rest: string)
    requires AllDigits(d)
    requires rest == [] || !IsDigit(rest[0])
    ensures DigitRun(d + rest) == |d|
  {
    if d == [] {
      assert d + rest == rest;
    } else {
      assert (d + rest)[1..] == d[1..] + rest;
      DigitRunOfDigits(d[1..], rest);
    }
  }

  lemma ParseNatOfDigits(d: string, rest: string)
    requires |d| > 0 && AllDigits(d)
    requires rest == [] || !IsDigit(rest[0])
    ensures ParseNat(d + rest) == Some(DigitsValue(d))
  {
    DigitRunOfDigits(d, rest);
    assert (d + rest)[..|d|] == d;
  }

  lemma ParseNonNegative(d: string, rest: string)
    requires |d| > 0 && AllDigits(d)
    requires rest == [] || !IsDigit(rest[0])
    ensures ParseInt(d + rest) == Some(DigitsValue(d) as int)
  {
    assert (d + rest)[0] == d[0];
    ParseNatOfDigits(d, rest);
  }

  lemma ParseNegative(s: string, v: nat)
    requires |s| > 0 && s[0] == '-'
    requires ParseNat(s[1..]) == Some(v)
    ensures ParseInt(s) == Some(-(v as int))
  {
  }

  lemma RenderedNegative(m: nat, rest: string)
    requires m > 0
    requires rest == [] || !IsDigit(rest[0])
    ensures ParseInt(IntToString(-(m as int)) + rest) == Some(-(m as int))
  {
    var d := NatToString(m);
    var s := IntToString(-(m as int)) + rest;
    assert s == ['-'] + (d + rest);
    assert s[0] == '-' && s[1..] == d + rest;
    ParseNatOfDigits(d, rest);
    NatToStringValue(m);
    ParseNegative(s, m);
  }

  lemma RenderedNonNegative(n: nat, rest: string)
    requires rest == [] || !IsDigit(rest[0])
    ensures ParseInt(IntToString(n) + rest) == Some(n)
  {
    ParseNonNegative(NatToString(n), rest);
    NatToStringValue(n);
  }

  /** Reading back a rendered integer that is followed by a non-digit (or
      by nothing) gives the integer. */
  lemma ParseIntOfRendered(n: int, rest: string)
    requires rest == [] || !IsDigit(rest[0])
    ensures ParseInt(IntToString(n) + rest) == Some(n)
  {
    if n < 0 {
      RenderedNegative(-n, rest);
    } else {
      RenderedNonNegative(n, rest);
    }
  }
}
