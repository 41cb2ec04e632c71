/**
 * Decimal rendering of integers, as JavaScript template literals print them
 * (`${n}` for an integer n), and the reading of a maximal run of ASCII digits,
 * as `parseInt(digits, 10)` does on a string of digits.
 */
module Decimal {
  import opened Wrappers

  predicate IsDigit(c: char) {
    '0' <= c <= '9'
  }

  predicate AllDigits(s: string) {
    forall i | 0 <= i < |s| :: IsDigit(s[i])
  }

  function DigitChar(d: nat): (c: char)
    requires d < 10
    ensures IsDigit(c) && c as int - '0' as int == d
  {
    ('0' as int + d) as char
  }

  /** Decimal digits of n, most significant first, without leading zeros. */
  function NatToString(n: nat): (s: string)
    ensures 0 < |s| && AllDigits(s)
    ensures s[0] == '0' ==> n == 0
  {
    if n < 10 then [DigitChar(n)] else NatToString(n / 10) + [DigitChar(n % 10)]
  }

  /** `${n}` for an integer n: a minus sign for negative values, then the digits. */
  function IntToString(n: int): string {
    if n < 0 then "-" + NatToString(-n) else NatToString(n)
  }

  /** The value of a string of digits (base 10). */
  function DigitsValue(s: string): nat
    requires AllDigits(s)
  {
    if s == [] then 0 else 10 * DigitsValue(s[..|s| - 1]) + (s[|s| - 1] as int - '0' as int)
  }

  /** Length of the maximal run of digits at the start of s (the `\d+` of a regular expression). */
  function DigitRunLength(s: string): (k: nat)
    ensures k <= |s| && AllDigits(s[..k])
    ensures k < |s| ==> !IsDigit(s[k])
  {
    if s == [] || !IsDigit(s[0]) then 0 else 1 + DigitRunLength(s[1..])
  }

  /** Reads a non-empty maximal run of digits from the front of t: its value and what follows. */
  function ReadDigits(t: string): Option<(nat, string)> {
    var k := DigitRunLength(t);
    if k == 0 then None else Some((DigitsValue(t[..k]), t[k..]))
  }

  /**
   * Reads an optional minus sign and a non-empty maximal run of digits from
   * the front of s; yields the value and what follows. It is the inverse of
   * IntToString (see ReadIntOfIntToString).
   */
  function ReadInt(s: string): Option<(int, string)> {
    if |s| > 0 && s[0] == '-' then
      match ReadDigits(s[1..])
      case None => None
      case Some((v, rest)) => Some((-(v as int), rest))
    else
      match ReadDigits(s)
      case None => None
      case Some((v, rest)) => Some((v as int, rest))
  }

  lemma {:induction false} DigitsValueOfNatToString(n: nat)
    ensures DigitsValue(NatToString(n)) == n
  {
    if n >= 10 {
      var s := NatToString(n);
      assert s[..|s| - 1] == NatToString(n / 10);
      DigitsValueOfNatToString(n / 10);
    }
  }

  lemma {:induction false} DigitRunOfDigits(d: string, rest: string)
    requires AllDigits(d)
    requires rest == [] || !IsDigit(rest[0])
    ensures DigitRunLength(d + rest) == |d|
  {
    if d != [] {
      assert (d + rest)[1..] == d[1..] + rest;
      DigitRunOfDigits(d[1..], rest);
    } else {
      assert d + rest == rest;
    }
  }

  /** Reading digits printed by NatToString, followed by non-digit text, recovers the number and the text. */
  lemma ReadDigitsOfNatToString(m: nat, rest: string)
    requires rest == [] || !IsDigit(rest[0])
    ensures ReadDigits(NatToString(m) + rest) == Some((m, rest))
  {
    var d := NatToString(m);
    DigitRunOfDigits(d, rest);
    assert (d + rest)[..|d|] == d;
    assert (d + rest)[|d|..] == rest;
    DigitsValueOfNatToString(m);
  }

  /** Reading back what IntToString printed, followed by any non-digit text, recovers the number and the text. */
  lemma ReadIntOfIntToString(n: int, rest: string)
    requires rest == [] || !IsDigit(rest[0])
    ensures ReadInt(IntToString(n) + rest) == Some((n, rest))
  {
    var m: nat := if n < 0 then -n else n;
    var t := NatToString(m) + rest;
    ReadDigitsOfNatToString(m, rest);
    if n < 0 {
      assert IntToString(n) + rest == "-" + t;
      ReadIntOfSigned("-" + t, t, m, rest);
    } else {
      assert IntToString(n) + rest == t;
      ReadIntOfUnsigned(t, m, rest);
    }
  }

  /** A minus sign followed by digits reads as the negated digits. */
  lemma ReadIntOfSigned(s: string, t: string, v: nat, rest: string)
    requires s == "-" + t && ReadDigits(t) == Some((v, rest))
    ensures ReadInt(s) == Some((-(v as int), rest))
  {
    assert s[1..] == t;
  }

  /** Digits without a sign read as themselves. */
  lemma ReadIntOfUnsigned(t: string, v: nat, rest: string)
    requires ReadDigits(t) == Some((v, rest))
    ensures ReadInt(t) == Some((v as int, rest))
  {
    assert IsDigit(t[0]);
  }
}
