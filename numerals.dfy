/** Fixed-width decimal and hexadecimal numerals (`String.format("%06d")`, UUID groups) and their values. */
module Numerals {

  function Pow(b: nat, e: nat): (r: nat)
    ensures b > 0 ==> r > 0
  {
    if e == 0 then 1 else b * Pow(b, e - 1)
  }

  predicate IsAsciiDigit(c: char) {
    '0' <= c <= '9'
  }

  /** The value of `c` as a digit in `base` (10 or 16), or -1: Java's `Character.digit` restricted to ASCII. */
  function CharDigit(c: char, base: nat): (d: int)
    requires base == 10 || base == 16
    ensures -1 <= d < base as int
    ensures base == 10 ==> (d >= 0 <==> IsAsciiDigit(c))
  {
    if '0' <= c <= '9' then c as int - '0' as int
    else if base == 16 && 'a' <= c <= 'f' then c as int - 'a' as int + 10
    else if base == 16 && 'A' <= c <= 'F' then c as int - 'A' as int + 10
    else -1
  }

  predicate AllDigits(s: string, base: nat)
    requires base == 10 || base == 16
  {
    forall i :: 0 <= i < |s| ==> CharDigit(s[i], base) >= 0
  }

  /** The value of a numeral, most significant digit first. */
  function ValueOf(s: string, base: nat): (v: nat)
    requires base == 10 || base == 16
    requires AllDigits(s, base)
    ensures v < Pow(base, |s|)
  {
    if s == [] then 0
    else
      var init := s[..|s| - 1];
      assert AllDigits(init, base);
      var d := CharDigit(s[|s| - 1], base);
      var vi := ValueOf(init, base);
      assert vi * base + d < Pow(base, |s|) by {
        assert vi + 1 <= Pow(base, |init|);
        assert (vi + 1) * base <= Pow(base, |init|) * base;
      }
      vi * base + d
  }

  /** The lower-case digit character for `d`. */
  function DigitChar(d: nat): (c: char)
    requires d < 16
    ensures CharDigit(c, 16) == d
    ensures d < 10 ==> CharDigit(c, 10) == d
  {
    if d < 10 then ('0' as int + d) as char else ('a' as int + d - 10) as char
  }

  /** `n` written with exactly `width` digits, zero-padded (the low `width` digits when `n` is wider). */
  function FixedWidth(n: nat, width: nat, base: nat): (r: string)
    requires base == 10 || base == 16
    ensures |r| == width
    ensures AllDigits(r, base)
  {
    if width == 0 then []
    else
      var r := FixedWidth(n / base, width - 1, base) + [DigitChar(n % base)];
      assert forall i :: 0 <= i < |r| - 1 ==> r[i] == FixedWidth(n / base, width - 1, base)[i];
      r
  }

  lemma DivBound(n: nat, base: nat, p: nat)
    requires base > 0 && n < base * p
    ensures n / base < p
  {
  }

  /** Reading a fixed-width numeral back gives the number it was written from. */
  lemma {:induction false} ValueOfFixedWidth(n: nat, width: nat, base: nat)
    requires base == 10 || base == 16
    requires n < Pow(base, width)
    ensures ValueOf(FixedWidth(n, width, base), base) == n
  {
    if width > 0 {
      var q, d := n / base, n % base;
      var init := FixedWidth(q, width - 1, base);
      var r := FixedWidth(n, width, base);
      assert r == init + [DigitChar(d)];
      assert r[..|r| - 1] == init;
      assert CharDigit(r[|r| - 1], base) == d;
      DivBound(n, base, Pow(base, width - 1));
      ValueOfFixedWidth(q, width - 1, base);
      assert ValueOf(r, base) == ValueOf(init, base) * base + d;
      if base == 10 {
        assert q * 10 + d == n;
      } else {
        assert q * 16 + d == n;
      }
    }
  }
}
