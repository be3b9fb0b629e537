/** Decimal digits: reading a run of ASCII digits as a number and writing a
    number back as digits, zero-padded to a width or in its shortest form. */
module Digits {

  predicate IsDigit(c: char) {
    '0' <= c <= '9'
  }

  predicate AllDigits(s: string) {
    forall i | 0 <= i < |s| :: IsDigit(s[i])
  }

  function DigitValue(c: char): (v: nat)
    requires IsDigit(c)
    ensures v < 10
  {
    c as int - '0' as int
  }

  function DigitChar(v: nat): (c: char)
    requires v < 10
    ensures IsDigit(c) && DigitValue(c) == v
  {
    ('0' as int + v) as char
  }

  function Pow10(n: nat): (p: nat)
    ensures p >= 1
  {
    if n == 0 then 1 else 10 * Pow10(n - 1)
  }

  /** The number a run of digits denotes (most significant digit first). */
  function DigitsValue(s: string): (v: nat)
    requires AllDigits(s)
    ensures v < Pow10(|s|)
  {
    if s == [] then 0 else 10 * DigitsValue(s[..|s| - 1]) + DigitValue(s[|s| - 1])
  }

  /** The last `width` decimal digits of `n`, zero-padded (strftime's `%02d`, `%04d`). */
  function Pad(n: nat, width: nat): (s: string)
    ensures |s| == width && AllDigits(s)
  {
    if width == 0 then [] else Pad(n / 10, width - 1) + [DigitChar(n % 10)]
  }

  /** The shortest decimal form of `n` (Python's `f"{n}"`). */
  function Decimal(n: nat): (s: string)
    ensures 1 <= |s| && AllDigits(s)
  {
    if n < 10 then [DigitChar(n)] else Decimal(n / 10) + [DigitChar(n % 10)]
  }

  lemma DigitCharOfValue(c: char)
    requires IsDigit(c)
    ensures DigitChar(DigitValue(c)) == c
  {
  }

  /** Padding a number that fits in the width loses nothing. */
  lemma {:induction false} PadThenRead(n: nat, width: nat)
    requires n < Pow10(width)
    ensures DigitsValue(Pad(n, width)) == n
  {
    if width > 0 {
      var s := Pad(n, width);
      var q, d := n / 10, n % 10;
      assert s == Pad(q, width - 1) + [DigitChar(d)];
      assert s[..|s| - 1] == Pad(q, width - 1);
      assert q < Pow10(width - 1);
      PadThenRead(q, width - 1);
      assert DigitsValue(s) == 10 * DigitsValue(Pad(q, width - 1)) + DigitValue(DigitChar(d));
    }
  }

  /** Reading a run of digits and padding it back to its length gives the run. */
  lemma {:induction false} ReadThenPad(s: string)
    requires AllDigits(s)
    ensures Pad(DigitsValue(s), |s|) == s
  {
    if s != [] {
      var p := s[..|s| - 1];
      var v := DigitsValue(s);
      assert AllDigits(p);
      ReadThenPad(p);
      assert v / 10 == DigitsValue(p) && v % 10 == DigitValue(s[|s| - 1]);
      DigitCharOfValue(s[|s| - 1]);
      assert s == p + [s[|s| - 1]];
    }
  }

  /** The shortest decimal form reads back as the number, so it is injective. */
  lemma {:induction false} DecimalThenRead(n: nat)
    ensures DigitsValue(Decimal(n)) == n
  {
    if n >= 10 {
      var s := Decimal(n);
      assert s[..|s| - 1] == Decimal(n / 10);
      DecimalThenRead(n / 10);
    }
  }

  lemma DecimalInjective(m: nat, n: nat)
    requires Decimal(m) == Decimal(n)
    ensures m == n
  {
    DecimalThenRead(m);
    DecimalThenRead(n);
  }
}
