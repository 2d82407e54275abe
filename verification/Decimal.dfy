/** Integers as printf("%d") writes and sscanf("%d") reads them. */
module Decimal {
  import opened Config

  const INT_MIN: int := -0x8000_0000
  const INT_MAX: int := 0x7fff_ffff
  const LONG_MAX: int := 0x7fff_ffff_ffff_ffff

  predicate IsDigit(c: char) { '0' <= c <= '9' }

  predicate AllDigits(s: string) { forall k :: 0 <= k < |s| ==> IsDigit(s[k]) }

  function DigitValue(c: char): nat
    requires IsDigit(c)
  {
    c as int - '0' as int
  }

  function DigitChar(d: nat): (c: char)
    requires d < 10
    ensures IsDigit(c) && DigitValue(c) == d
  {
    ('0' as int + d) as char
  }

  function PrintNat(n: nat): (s: string)
    ensures |s| > 0 && AllDigits(s)
  {
    if n < 10 then [DigitChar(n)] else PrintNat(n / 10) + [DigitChar(n % 10)]
  }

  function ValueOf(s: string): nat
    requires AllDigits(s)
  {
    if s == [] then 0 else
      assert IsDigit(s[|s| - 1]);
      10 * ValueOf(s[..|s| - 1]) + DigitValue(s[|s| - 1])
  }

  function Print(n: int): string {
    if n < 0 then "-" + PrintNat(-n) else PrintNat(n)
  }

  /** The longest prefix of digits. */
  function DigitPrefix(s: string): (d: string)
    ensures AllDigits(d) && d <= s
    ensures |d| < |s| ==> !IsDigit(s[|d|])
  {
    if s == [] || !IsDigit(s[0]) then [] else
      assert s == [s[0]] + s[1..];
      [s[0]] + DigitPrefix(s[1..])
  }

  predicate IsSpace(c: char) { c == ' ' || '\t' <= c <= '\r' }

  function SkipSpace(s: string): string {
    if s != [] && IsSpace(s[0]) then SkipSpace(s[1..]) else s
  }

  /** sscanf("%d"): white space, an optional sign, digits; no result without a
      digit. A value that does not fit is undefined in C; here it is saturated to
      a 64-bit long and narrowed to an int. */
  function Scan(s: string): Option<int> {
    var t := SkipSpace(s);
    var negative := t != [] && t[0] == '-';
    var digits := DigitPrefix(if t != [] && (t[0] == '-' || t[0] == '+') then t[1..] else t);
    var value: int := ValueOf(digits);
    if digits == [] then None else Some(ToInt(if negative then -value else value))
  }

  function ToInt(n: int): (i: int)
    ensures INT_MIN <= i <= INT_MAX
    ensures INT_MIN <= n <= INT_MAX ==> i == n
  {
    var long := if n > LONG_MAX then LONG_MAX else if n < -LONG_MAX - 1 then -LONG_MAX - 1 else n;
    var low := long % 0x1_0000_0000;
    if low > INT_MAX then low - 0x1_0000_0000 else low
  }

  lemma {:induction false} ValuePrint(n: nat)
    ensures ValueOf(PrintNat(n)) == n
  {
    var s := PrintNat(n);
    if n < 10 {
      assert s[..0] == [];
    } else {
      ValuePrint(n / 10);
      assert s[..|s| - 1] == PrintNat(n / 10);
    }
  }

  /** Different numbers are printed differently. */
  lemma PrintInjective(m: nat, n: nat)
    requires PrintNat(m) == PrintNat(n)
    ensures m == n
  {
    ValuePrint(m);
    ValuePrint(n);
  }

  lemma {:induction false} DigitPrefixAll(s: string, rest: string)
    requires AllDigits(s) && (rest == [] || !IsDigit(rest[0]))
    ensures DigitPrefix(s + rest) == s
  {
    if s == [] {
      assert s + rest == rest;
    } else {
      DigitPrefixAll(s[1..], rest);
      assert (s + rest)[1..] == s[1..] + rest;
      assert s == [s[0]] + s[1..];
    }
  }

  lemma DigitsAreNoSpace(digits: string)
    requires AllDigits(digits) && digits != ""
    ensures SkipSpace(digits) == digits && SkipSpace("-" + digits) == "-" + digits
    ensures digits[0] != '-' && digits[0] != '+'
  {
    assert IsDigit(digits[0]);
  }

  /** Digits behind an optional sign. */
  lemma ScanDigits(negative: bool, digits: string)
    requires AllDigits(digits) && digits != ""
    ensures var value: int := ValueOf(digits);
            Scan(if negative then "-" + digits else digits) == Some(ToInt(if negative then -value else value))
  {
    DigitPrefixAll(digits, []);
    assert digits + [] == digits;
    DigitsAreNoSpace(digits);
    assert ("-" + digits)[0] == '-' && ("-" + digits)[1..] == digits;
  }

  /** Reading a printed int gives the same int. */
  lemma ScanPrint(n: int)
    requires INT_MIN <= n <= INT_MAX
    ensures Scan(Print(n)) == Some(n)
  {
    var digits := PrintNat(if n < 0 then -n else n);
    ValuePrint(if n < 0 then -n else n);
    ScanDigits(n < 0, digits);
  }
}
