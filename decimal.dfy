/**
 * Fixed-width decimal text: Python's `f"{n:0Wd}"` for a number that fits in W
 * digits, and `int(...)` applied to a slice of ASCII digits.
 */
module Decimal {
  import opened Basics

  function Pow10(w: nat): (r: nat)
    ensures r >= 1
  {
    if w == 0 then 1 else 10 * Pow10(w - 1)
  }

  predicate IsDigit(c: char) {
    '0' <= c <= '9'
  }

  predicate AllDigits(s: string) {
    forall i :: 0 <= i < |s| ==> IsDigit(s[i])
  }

  function DigitChar(d: nat): (c: char)
    requires d < 10
    ensures IsDigit(c) && c as int - '0' as int == d
  {
    ('0' as int + d) as char
  }

  /** `f"{n:0{width}d}"`: the decimal digits of n, zero-padded on the left to exactly `width` characters. */
  function Pad(n: nat, width: nat): (s: string)
    requires n < Pow10(width)
    ensures |s| == width && AllDigits(s)
  {
    if width == 0 then ""
    else
      assert n / 10 < Pow10(width - 1);
      Pad(n / 10, width - 1) + [DigitChar(n % 10)]
  }

  /** The number a string of ASCII digits denotes, most significant digit first. */
  function DigitsValue(s: string): (v: nat)
    requires AllDigits(s)
    ensures v < Pow10(|s|)
  {
    if s == [] then 0
    else
      var init := s[..|s| - 1];
      assert AllDigits(init);
      DigitsValue(init) * 10 + (s[|s| - 1] as int - '0' as int)
  }

  /**
   * `int(s)` on a slice: a number when s is a non-empty run of ASCII digits,
   * None where Python raises ValueError.
   */
  function ParseNat(s: string): (r: Option<nat>)
    ensures r.Some? <==> |s| > 0 && AllDigits(s)
    ensures r.Some? ==> r.value < Pow10(|s|)
  {
    if |s| > 0 && AllDigits(s) then Some(DigitsValue(s)) else None
  }

  /** Reading back a padded number gives the number. */
  lemma {:induction false} DigitsValueOfPad(n: nat, width: nat)
    requires n < Pow10(width)
    ensures DigitsValue(Pad(n, width)) == n
  {
    if width > 0 {
      assert n / 10 < Pow10(width - 1);
      var s := Pad(n, width);
      assert s[..|s| - 1] == Pad(n / 10, width - 1);
      DigitsValueOfPad(n / 10, width - 1);
    }
  }

  /** Format then parse: a padded number of positive width parses back to itself. */
  lemma ParsePad(n: nat, width: nat)
    requires 0 < width && n < Pow10(width)
    ensures ParseNat(Pad(n, width)) == Some(n)
  {
    DigitsValueOfPad(n, width);
  }

  /** Parse then format: a run of digits is the padding of the number it denotes. */
  lemma {:induction false} PadOfDigitsValue(s: string)
    requires AllDigits(s)
    ensures Pad(DigitsValue(s), |s|) == s
  {
    if s != [] {
      var init := s[..|s| - 1];
      assert AllDigits(init);
      var v := DigitsValue(s);
      var d := s[|s| - 1] as int - '0' as int;
      assert v / 10 == DigitsValue(init) && v % 10 == d;
      PadOfDigitsValue(init);
      assert DigitChar(d) == s[|s| - 1];
      assert s == init + [s[|s| - 1]];
    }
  }

  /** Two numbers that pad to the same text are equal. */
  lemma PadInjective(m: nat, n: nat, width: nat)
    requires m < Pow10(width) && n < Pow10(width)
    requires Pad(m, width) == Pad(n, width)
    ensures m == n
  {
    DigitsValueOfPad(m, width);
    DigitsValueOfPad(n, width);
  }
}
