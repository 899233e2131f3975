/** Decimal text of non-negative integers, as PHP's string conversion and `date()` write them. */
module Decimal {
  import opened Wrappers

  function Pow10(k: nat): (p: nat)
    ensures p >= 1
  {
    if k == 0 then 1 else 10 * Pow10(k - 1)
  }

  predicate IsDigit(c: char) {
    '0' <= c <= '9'
  }

  predicate AllDigits(s: string) {
    forall i :: 0 <= i < |s| ==> IsDigit(s[i])
  }

  function DigitChar(d: nat): (c: char)
    requires d < 10
    ensures IsDigit(c) && c as int - '0' as int == d
  {
    ('0' as int + d) as char
  }

  /** The `width` lowest decimal digits of `n`, most significant first, zero-padded. */
  function Digits(n: nat, width: nat): (s: string)
    ensures |s| == width && AllDigits(s)
  {
    if width == 0 then [] else Digits(n / 10, width - 1) + [DigitChar(n % 10)]
  }

  /** The number a string of digits denotes. */
  function Value(s: string): nat
    requires AllDigits(s)
  {
    if s == [] then 0 else 10 * Value(s[..|s| - 1]) + (s[|s| - 1] as int - '0' as int)
  }

  /** Reading back `width` digits gives the number, whenever it fits in `width` digits. */
  lemma {:induction false} ValueOfDigits(n: nat, width: nat)
    requires n < Pow10(width)
    ensures Value(Digits(n, width)) == n
  {
    if width > 0 {
      assert n / 10 < Pow10(width - 1);
      ValueOfDigits(n / 10, width - 1);
      var s := Digits(n, width);
      assert s[..|s| - 1] == Digits(n / 10, width - 1);
    }
  }

  /** The number of digits PHP writes for `n`: no leading zeros, at least one digit. */
  function Width(n: nat): (w: nat)
    ensures 1 <= w && n < Pow10(w)
    ensures w > 1 ==> Pow10(w - 1) <= n
  {
    if n < 10 then 1 else 1 + Width(n / 10)
  }

  /** A number below 10^k needs at most k digits. */
  lemma {:induction false} WidthAtMost(n: nat, k: nat)
    requires 1 <= k && n < Pow10(k)
    ensures Width(n) <= k
  {
    if n >= 10 {
      if k == 1 { assert false; }
      WidthAtMost(n / 10, k - 1);
    }
  }

  /** A number of at least 10^(k-1) needs at least k digits. */
  lemma {:induction false} WidthAtLeast(n: nat, k: nat)
    requires 1 <= k && Pow10(k - 1) <= n
    ensures k <= Width(n)
  {
    if k > 1 {
      assert Pow10(k - 2) <= n / 10;
      WidthAtLeast(n / 10, k - 1);
    }
  }

  /** `(string) $n` for a non-negative integer. */
  function NatText(n: nat): (s: string)
    ensures |s| == Width(n) && AllDigits(s)
  {
    Digits(n, Width(n))
  }

  /** `(string) $i` for any integer: a minus sign before the magnitude when negative. */
  function IntText(i: int): string {
    if i < 0 then "-" + NatText(-i) else NatText(i)
  }

  /** Reads back an optionally signed decimal integer. */
  function ParseInt(s: string): Option<int> {
    if |s| > 1 && s[0] == '-' && AllDigits(s[1..]) then Some(-(Value(s[1..]) as int))
    else if |s| > 0 && AllDigits(s) then Some(Value(s))
    else None
  }

  lemma IntTextRoundTrip(i: int)
    ensures ParseInt(IntText(i)) == Some(i)
  {
    var m: nat := if i < 0 then -i else i;
    ValueOfDigits(m, Width(m));
    if i < 0 {
      assert IntText(i)[1..] == NatText(m);
    }
  }
}
