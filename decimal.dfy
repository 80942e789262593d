/**
 * Decimal text of integers, as Python's `str(int)` writes them (a leading
 * `-` for negative numbers, no leading zeros), and the parser that reads the
 * text back. Key derivation formats the key-schema version this way, and the
 * store model names its sessions with it.
 */
module Decimal {
  import opened Wrappers

  predicate IsDigit(c: char) {
    '0' <= c <= '9'
  }

  predicate AllDigits(s: string) {
    forall i :: 0 <= i < |s| ==> IsDigit(s[i])
  }

  function DigitChar(d: nat): (c: char)
    requires d < 10
    ensures IsDigit(c) && DigitValue(c) == d
  {
    ('0' as int + d) as char
  }

  function DigitValue(c: char): (d: nat)
    requires IsDigit(c)
    ensures d < 10
  {
    c as int - '0' as int
  }

  /** The decimal digits of `n`, most significant first. */
  function FromNat(n: nat): (s: string)
    ensures |s| >= 1 && AllDigits(s)
    ensures n >= 10 <==> |s| > 1
    ensures s[0] == '0' <==> n == 0
  {
    if n < 10 then [DigitChar(n)] else FromNat(n / 10) + [DigitChar(n % 10)]
  }

  /** Python's `str(i)` for an integer `i`. */
  function FromInt(i: int): (s: string)
    ensures |s| >= 1
    ensures i < 0 <==> s[0] == '-'
    ensures i >= 0 ==> AllDigits(s)
    ensures i < 0 ==> AllDigits(s[1..]) && |s| >= 2
    ensures i >= 0 ==> (s[0] == '0' <==> i == 0)
    ensures i < 0 ==> s[1] != '0'
  {
    if i < 0 then "-" + FromNat(-i) else FromNat(i)
  }

  /** The number a string of digits denotes. */
  function ValueOf(s: string): nat
    requires AllDigits(s)
  {
    if s == [] then 0 else ValueOf(s[..|s| - 1]) * 10 + DigitValue(s[|s| - 1])
  }

  lemma {:induction false} ValueOfFromNat(n: nat)
    ensures ValueOf(FromNat(n)) == n
  {
    if n >= 10 {
      var s := FromNat(n);
      assert s[..|s| - 1] == FromNat(n / 10);
      ValueOfFromNat(n / 10);
    }
  }

  /** A digit text is worth at least its leading digit. */
  lemma {:induction false} ValueOfAtLeastLead(s: string)
    requires |s| >= 1 && AllDigits(s)
    ensures ValueOf(s) >= DigitValue(s[0])
    decreases |s|
  {
    if |s| > 1 {
      ValueOfAtLeastLead(s[..|s| - 1]);
    }
  }

  /**
   * `FromNat` writes the only digit text without leading zeros for its value:
   * any such text is exactly what `FromNat` gives for the number it denotes.
   */
  lemma {:induction false} FromNatIsCanonical(s: string)
    requires |s| >= 1 && AllDigits(s) && (s[0] != '0' || |s| == 1)
    ensures FromNat(ValueOf(s)) == s
    decreases |s|
  {
    var last := s[|s| - 1];
    if |s| == 1 {
      assert DigitChar(DigitValue(last)) == last;
      assert s == [last];
    } else {
      var prefix := s[..|s| - 1];
      assert prefix[0] == s[0];
      ValueOfAtLeastLead(prefix);
      FromNatIsCanonical(prefix);
      var n := ValueOf(s);
      assert n / 10 == ValueOf(prefix) && n % 10 == DigitValue(last);
      assert DigitChar(DigitValue(last)) == last;
      assert s == prefix + [last];
    }
  }

  /** Length of the run of digits that `s` starts with. */
  function DigitRun(s: string): (k: nat)
    ensures k <= |s| && AllDigits(s[..k])
    ensures k < |s| ==> !IsDigit(s[k])
  {
    if s == [] || !IsDigit(s[0]) then 0
    else
      var k := 1 + DigitRun(s[1..]);
      assert s[..k] == [s[0]] + s[1..][..k - 1];
      k
  }

  /**
   * Reads a natural number from the longest run of digits at the front of `s`
   * and returns it with the rest of `s`; None when `s` does not start with a
   * digit.
   */
  function ParseNatPrefix(s: string): (r: Option<(nat, string)>)
    ensures r.Some? ==> |r.value.1| < |s| && r.value.1 == s[|s| - |r.value.1|..]
  {
    var k := DigitRun(s);
    if k == 0 then None else Some((ValueOf(s[..k]), s[k..]))
  }

  /** Reads an integer written as `FromInt` writes it from the front of `s`. */
  function ParseIntPrefix(s: string): (r: Option<(int, string)>)
    ensures r.Some? ==> |r.value.1| < |s| && r.value.1 == s[|s| - |r.value.1|..]
  {
    if |s| > 0 && s[0] == '-' then
      match ParseNatPrefix(s[1..])
      case None => None
      case Some((n, rest)) => Some((-(n as int), rest))
    else
      match ParseNatPrefix(s)
      case None => None
      case Some((n, rest)) => Some((n as int, rest))
  }

  /** A digit run followed by a non-digit is read up to that non-digit. */
  lemma {:induction false} DigitRunOfDigits(digits: string, tail: string)
    requires AllDigits(digits)
    requires tail == [] || !IsDigit(tail[0])
    ensures DigitRun(digits + tail) == |digits|
  {
    if digits != [] {
      assert (digits + tail)[1..] == digits[1..] + tail;
      DigitRunOfDigits(digits[1..], tail);
    }
  }

  /** `ParseNatPrefix` undoes `FromNat` whatever non-digit text follows. */
  lemma ParseNatPrefixFromNat(n: nat, tail: string)
    requires tail == [] || !IsDigit(tail[0])
    ensures ParseNatPrefix(FromNat(n) + tail) == Some((n, tail))
  {
    var s := FromNat(n) + tail;
    DigitRunOfDigits(FromNat(n), tail);
    assert s[..|FromNat(n)|] == FromNat(n);
    assert s[|FromNat(n)|..] == tail;
    ValueOfFromNat(n);
  }

  /** `ParseIntPrefix` reads the digits of a natural number back. */
  lemma ParseIntPrefixOfNat(n: nat, tail: string)
    requires tail == [] || !IsDigit(tail[0])
    ensures ParseIntPrefix(FromNat(n) + tail) == Some((n as int, tail))
  {
    ParseNatPrefixFromNat(n, tail);
    assert IsDigit((FromNat(n) + tail)[0]);
  }

  /** `ParseIntPrefix` reads a `-` and the digits of a natural number back. */
  lemma ParseIntPrefixOfNegated(n: nat, tail: string)
    requires tail == [] || !IsDigit(tail[0])
    ensures ParseIntPrefix("-" + FromNat(n) + tail) == Some((-(n as int), tail))
  {
    var s := "-" + FromNat(n) + tail;
    assert s[1..] == FromNat(n) + tail;
    ParseNatPrefixFromNat(n, tail);
  }

  /** `ParseIntPrefix` undoes `FromInt` whatever non-digit text follows. */
  lemma ParseIntPrefixFromInt(i: int, tail: string)
    requires tail == [] || !IsDigit(tail[0])
    ensures ParseIntPrefix(FromInt(i) + tail) == Some((i, tail))
  {
    if i < 0 {
      ParseIntPrefixOfNegated(-i, tail);
    } else {
      ParseIntPrefixOfNat(i, tail);
    }
  }

  /** Distinct integers have distinct decimal texts. */
  lemma FromIntInjective(i: int, j: int)
    requires FromInt(i) == FromInt(j)
    ensures i == j
  {
    ParseIntPrefixFromInt(i, []);
    ParseIntPrefixFromInt(j, []);
    assert FromInt(i) + [] == FromInt(j) + [];
  }
}
