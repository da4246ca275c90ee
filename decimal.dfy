/**
 * Base-10 signed 64-bit integers as Go's strconv package reads and writes
 * them: ParseInt(s, 10, 64) and its inverse FormatInt(n, 10).
 */
module Decimal {
  import opened Wrappers

  const MaxInt64: int := 0x7fff_ffff_ffff_ffff
  const MinInt64: int := -0x8000_0000_0000_0000

  /** Go's int64. */
  type Int64 = x: int | MinInt64 <= x <= MaxInt64

  predicate IsDigit(c: char) { '0' <= c <= '9' }

  predicate AllDigits(s: string) { forall i :: 0 <= i < |s| ==> IsDigit(s[i]) }

  function DigitValue(c: char): (d: nat)
    requires IsDigit(c)
    ensures d < 10
  {
    (c as int) - ('0' as int)
  }

  function DigitChar(d: nat): (c: char)
    requires d < 10
    ensures IsDigit(c) && DigitValue(c) == d
  {
    (('0' as int) + d) as char
  }

  /** The number a run of decimal digits denotes, most significant first; leading zeros are allowed. */
  function DigitsValue(s: string): nat
    requires AllDigits(s)
  {
    if s == [] then 0 else DigitsValue(s[..|s| - 1]) * 10 + DigitValue(s[|s| - 1])
  }

  function Pow10(k: nat): (p: nat)
    ensures p >= 1
  {
    if k == 0 then 1 else 10 * Pow10(k - 1)
  }

  /** k digits denote less than 10^k. */
  lemma {:induction false} DigitsValueBound(s: string)
    requires AllDigits(s)
    ensures DigitsValue(s) < Pow10(|s|)
  {
    if s != [] {
      DigitsValueBound(s[..|s| - 1]);
    }
  }

  /**
   * strconv.ParseInt(s, 10, 64): an optional '+' or '-', then one or more
   * decimal digits (no underscores, no spaces), whose value must fit int64.
   * A syntax error and a range error are both None.
   */
  function ParseInt64(s: string): (r: Option<Int64>)
    ensures r.Some? ==> |s| >= 1 && forall i :: 0 < i < |s| ==> IsDigit(s[i])
    ensures r.Some? ==> IsDigit(s[0]) || (|s| >= 2 && (s[0] == '+' || s[0] == '-'))
    ensures r.Some? && s[0] == '-' ==> r.value <= 0
    ensures r.Some? && s[0] != '-' ==> r.value >= 0
  {
    if s == [] then None
    else
      var neg := s[0] == '-';
      var digits := if s[0] == '+' || s[0] == '-' then s[1..] else s;
      if digits == [] || !AllDigits(digits) then None
      else
        var v: int := if neg then -(DigitsValue(digits) as int) else DigitsValue(digits);
        if MinInt64 <= v <= MaxInt64 then Some(v) else None
  }

  /**
   * Go's two's-complement int64 arithmetic: the int64 congruent to x
   * modulo 2^64, which is x itself whenever x fits.
   */
  function Wrap64(x: int): (r: Int64)
    ensures (r - x) % 0x1_0000_0000_0000_0000 == 0
    ensures MinInt64 <= x <= MaxInt64 ==> r == x
  {
    (x - MinInt64) % 0x1_0000_0000_0000_0000 + MinInt64
  }

  /** The last k decimal digits of n, with leading zeros: a fixed-width field such as a year or a month. */
  function PadDigits(n: nat, k: nat): string
  {
    if k == 0 then [] else PadDigits(n / 10, k - 1) + [DigitChar(n % 10)]
  }

  /** A fixed-width field of k digits reads back as n when n has at most k digits. */
  lemma {:induction false} PadDigitsDenotes(n: nat, k: nat)
    requires n < Pow10(k)
    ensures |PadDigits(n, k)| == k && AllDigits(PadDigits(n, k))
    ensures DigitsValue(PadDigits(n, k)) == n
  {
    if k > 0 {
      PadDigitsDenotes(n / 10, k - 1);
      var a := PadDigits(n / 10, k - 1);
      var s := a + [DigitChar(n % 10)];
      assert s[..|s| - 1] == a;
      assert DigitsValue(s) == DigitsValue(a) * 10 + n % 10;
    }
  }

  /** Conversely, a run of k digits is the fixed-width field of the number it denotes. */
  lemma {:induction false} PadDigitsOfDigits(t: string)
    requires AllDigits(t)
    ensures PadDigits(DigitsValue(t), |t|) == t
  {
    if t != [] {
      var init, c := t[..|t| - 1], t[|t| - 1];
      PadDigitsOfDigits(init);
      var v := DigitsValue(t);
      assert v == DigitsValue(init) * 10 + DigitValue(c);
      assert v / 10 == DigitsValue(init) && v % 10 == DigitValue(c);
      assert DigitChar(DigitValue(c)) == c;
      assert init + [c] == t;
    }
  }

  /** strconv.FormatUint(m, 10): the shortest digit string for m. */
  function FormatNat(m: nat): string
  {
    if m < 10 then [DigitChar(m)] else FormatNat(m / 10) + [DigitChar(m % 10)]
  }

  /** strconv.FormatInt(n, 10). */
  function FormatInt(n: int): string
  {
    if n < 0 then "-" + FormatNat(-n) else FormatNat(n)
  }

  lemma {:induction false} FormatNatDenotes(m: nat)
    ensures |FormatNat(m)| >= 1 && AllDigits(FormatNat(m))
    ensures DigitsValue(FormatNat(m)) == m
  {
    if m >= 10 {
      FormatNatDenotes(m / 10);
      var a := FormatNat(m / 10);
      var s := a + [DigitChar(m % 10)];
      assert s[..|s| - 1] == a;
      assert DigitsValue(s) == DigitsValue(a) * 10 + m % 10;
    }
  }

  /** Reading back what FormatInt writes gives the same int64. */
  lemma ParseFormatRoundTrip(n: Int64)
    ensures ParseInt64(FormatInt(n)) == Some(n)
  {
    var s := FormatInt(n);
    if n < 0 {
      var m: int := -(n as int);
      FormatNatDenotes(m);
      assert s[0] == '-' && s[1..] == FormatNat(m);
      assert ParseInt64(s) == Some(-(DigitsValue(FormatNat(m)) as int));
    } else {
      FormatNatDenotes(n);
      assert s == FormatNat(n) && IsDigit(s[0]);
      assert ParseInt64(s) == Some(DigitsValue(s));
    }
  }

  /** Every character FormatInt writes is a digit, except a leading '-' for a negative number. */
  lemma FormatIntShape(n: int)
    ensures |FormatInt(n)| >= 1
    ensures forall i :: 0 < i < |FormatInt(n)| ==> IsDigit(FormatInt(n)[i])
    ensures FormatInt(n)[0] == '-' || IsDigit(FormatInt(n)[0])
  {
    if n < 0 { FormatNatDenotes(-n); } else { FormatNatDenotes(n); }
  }
}
