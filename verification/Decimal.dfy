/** Decimal text: std::to_string on the printing side and the C library's
    strtol on the reading side. Both are library functions; they are modelled
    from their documented behaviour, including strtol's white space, sign,
    end position and saturation. */
module Decimal {
  import opened Basics

  const INT_MAX: int := 0x7FFF_FFFF
  const LONG_MAX: int := 0x7FFF_FFFF_FFFF_FFFF
  const LONG_MIN: int := -0x8000_0000_0000_0000

  predicate IsDigit(c: char) { '0' <= c <= '9' }

  /** std::isspace in the "C" locale. */
  predicate IsSpace(c: char) { c == ' ' || '\t' <= c <= '\r' }

  function DigitValue(c: char): nat
    requires IsDigit(c)
  {
    (c as int) - ('0' as int)
  }

  function DigitChar(d: nat): (c: char)
    requires d < 10
    ensures IsDigit(c) && DigitValue(c) == d
  {
    (('0' as int) + d) as char
  }

  predicate AllDigits(s: string) { forall k :: 0 <= k < |s| ==> IsDigit(s[k]) }

  function DigitsValue(s: string): nat
    requires AllDigits(s)
  {
    if s == [] then 0 else 10 * DigitsValue(s[..|s| - 1]) + DigitValue(s[|s| - 1])
  }

  /** std::to_string for a non-negative number. */
  function ToString(n: nat): string {
    if n < 10 then [DigitChar(n)] else ToString(n / 10) + [DigitChar(n % 10)]
  }

  /** std::to_string for a signed number. */
  function IntToString(n: int): string {
    if n < 0 then "-" + ToString(-n) else ToString(n)
  }

  /** First index at or after `i` that does not hold white space. */
  function SpacesEnd(s: string, i: nat): (j: nat)
    requires i <= |s|
    ensures i <= j <= |s|
    ensures forall k :: i <= k < j ==> IsSpace(s[k])
    ensures j < |s| ==> !IsSpace(s[j])
    decreases |s| - i
  {
    if i < |s| && IsSpace(s[i]) then SpacesEnd(s, i + 1) else i
  }

  /** First index at or after `i` that does not hold a digit. */
  function DigitsEnd(s: string, i: nat): (j: nat)
    requires i <= |s|
    ensures i <= j <= |s|
    ensures forall k :: i <= k < j ==> IsDigit(s[k])
    ensures j < |s| ==> !IsDigit(s[j])
    decreases |s| - i
  {
    if i < |s| && IsDigit(s[i]) then DigitsEnd(s, i + 1) else i
  }

  function Clamp(n: int): int { Max(LONG_MIN, Min(n, LONG_MAX)) }

  /** strtol(s + start, &end, 10): the value and the index of `end`. When no
      digit is found the end is `start` itself. */
  function Strtol(s: string, start: nat): (r: (int, nat))
    requires start <= |s|
    ensures start <= r.1 <= |s|
  {
    var sign := SpacesEnd(s, start);
    var negative := sign < |s| && s[sign] == '-';
    var first := if sign < |s| && (s[sign] == '-' || s[sign] == '+') then sign + 1 else sign;
    var end := DigitsEnd(s, first);
    if end == first then (0, start)
    else
      var magnitude: int := DigitsValue(s[first..end]);
      (Clamp(if negative then -magnitude else magnitude), end)
  }

  /** Digits read as a decimal number, most significant first. */
  lemma DigitsAreDecimal(s: string, c: char, d: nat)
    requires AllDigits(s) && IsDigit(c) && d < 10
    ensures IsDigit("0123456789"[d]) && DigitValue("0123456789"[d]) == d
    ensures AllDigits(s + [c]) && DigitsValue(s + [c]) == 10 * DigitsValue(s) + DigitValue(c)
    ensures DigitsValue("") == 0
  {
    assert (s + [c])[..|s|] == s;
  }

  lemma {:induction false} ToStringValue(n: nat)
    ensures |ToString(n)| > 0 && AllDigits(ToString(n))
    ensures DigitsValue(ToString(n)) == n
  {
    if n < 10 {
      assert ToString(n)[..0] == [];
    } else {
      ToStringValue(n / 10);
      assert ToString(n)[..|ToString(n)| - 1] == ToString(n / 10);
    }
  }

  lemma DigitsEndAll(s: string, i: nat)
    requires i <= |s| && forall k :: i <= k < |s| ==> IsDigit(s[k])
    ensures DigitsEnd(s, i) == |s|
  {
  }

  lemma StrtolOfDigits(s: string, first: nat)
    requires first < |s| && forall k :: first <= k < |s| ==> IsDigit(s[k])
    requires first == 0 || (first == 1 && s[0] == '-')
    ensures AllDigits(s[first..])
    ensures var magnitude: int := DigitsValue(s[first..]);
            Strtol(s, 0) == (Clamp(if first == 1 then -magnitude else magnitude), |s|)
  {
    hide Clamp, DigitsValue;
    assert SpacesEnd(s, 0) == 0;
    DigitsEndAll(s, first);
    assert s[first..|s|] == s[first..];
  }

  /** Reading back a printed number gives the number, up to saturation. */
  lemma StrtolOfInt(n: int)
    ensures Strtol(IntToString(n), 0) == (Clamp(n), |IntToString(n)|)
  {
    hide Strtol, Clamp, DigitsValue, ToString;
    var s := IntToString(n);
    if n < 0 {
      ToStringValue(-n);
      assert s[1..] == ToString(-n);
      StrtolOfDigits(s, 1);
    } else {
      ToStringValue(n);
      assert s[0..] == s;
      StrtolOfDigits(s, 0);
    }
  }

  lemma {:induction false} IntToStringInjective(a: int, b: int)
    requires IntToString(a) == IntToString(b)
    ensures a == b
  {
    ToStringValue(if a < 0 then -a else a);
    ToStringValue(if b < 0 then -b else b);
    assert IsDigit(ToString(if a < 0 then -a else a)[0]);
    assert IsDigit(ToString(if b < 0 then -b else b)[0]);
    assert a < 0 ==> IntToString(a)[0] == '-' && IntToString(a)[1..] == ToString(-a);
    assert b < 0 ==> IntToString(b)[0] == '-' && IntToString(b)[1..] == ToString(-b);
  }
}
