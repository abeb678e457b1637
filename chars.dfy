/** Character-level helpers shared by the identifier codecs: hexadecimal and
    decimal digits, fixed-width upper-case hex formatting (`{:08X}`) and plain
    decimal formatting (`{}` on an unsigned integer). */
module Chars {

  const TWO_POW_32: nat := 0x1_0000_0000
  const TWO_POW_64: nat := 0x1_0000_0000_0000_0000

  /** Rust's `u32` and `u64`. */
  type u32 = x: nat | x < 0x1_0000_0000
  type u64 = x: nat | x < 0x1_0000_0000_0000_0000

  /** `char::is_digit(16)`: ASCII digits and ASCII letters a-f in either case. */
  predicate IsHexDigit(c: char) {
    ('0' <= c <= '9') || ('a' <= c <= 'f') || ('A' <= c <= 'F')
  }

  /** A digit that `{:X}` can produce. */
  predicate IsUpperHexDigit(c: char) {
    ('0' <= c <= '9') || ('A' <= c <= 'F')
  }

  predicate AllHex(s: string) {
    forall i | 0 <= i < |s| :: IsHexDigit(s[i])
  }

  predicate AllUpperHex(s: string) {
    forall i | 0 <= i < |s| :: IsUpperHexDigit(s[i])
  }

  /** nom's `digit1` character class: ASCII decimal digits. */
  predicate IsDigit(c: char) {
    '0' <= c <= '9'
  }

  predicate AllDigits(s: string) {
    forall i | 0 <= i < |s| :: IsDigit(s[i])
  }

  function HexDigitValue(c: char): (d: nat)
    requires IsHexDigit(c)
    ensures d < 16
  {
    if '0' <= c <= '9' then c as int - '0' as int
    else if 'a' <= c <= 'f' then c as int - 'a' as int + 10
    else c as int - 'A' as int + 10
  }

  /** The upper-case digit for `d`; `HexDigitValue` inverts it. */
  function UpperHexChar(d: nat): (c: char)
    requires d < 16
    ensures IsUpperHexDigit(c) && IsHexDigit(c) && HexDigitValue(c) == d
  {
    if d < 10 then ('0' as int + d) as char else ('A' as int + d - 10) as char
  }

  /** The big-endian value of a run of hex digits (`u32::from_str_radix(s, 16)`
      without its width check). */
  function HexValue(s: string): nat
    requires AllHex(s)
  {
    if s == [] then 0 else HexValue(s[..|s| - 1]) * 16 + HexDigitValue(s[|s| - 1])
  }

  function Pow16(n: nat): (p: nat)
    ensures p >= 1
  {
    if n == 0 then 1 else 16 * Pow16(n - 1)
  }

  lemma Pow16Of8()
    ensures Pow16(8) == TWO_POW_32
  {
    calc {
      Pow16(8);
      16 * Pow16(7);
      16 * (16 * Pow16(6));
      16 * (16 * (16 * Pow16(5)));
      16 * (16 * (16 * (16 * Pow16(4))));
      { assert Pow16(4) == 65536 by { assert Pow16(2) == 256; } }
      TWO_POW_32;
    }
  }

  /** `n` hex digits never denote more than `16^n - 1`. */
  lemma {:induction false} HexValueBound(s: string)
    requires AllHex(s)
    ensures HexValue(s) < Pow16(|s|)
  {
    if s != [] {
      var init := s[..|s| - 1];
      HexValueBound(init);
      assert HexValue(init) + 1 <= Pow16(|s| - 1);
      calc {
        HexValue(s);
        HexValue(init) * 16 + HexDigitValue(s[|s| - 1]);
      <  HexValue(init) * 16 + 16;
        (HexValue(init) + 1) * 16;
      <= Pow16(|s| - 1) * 16;
      }
    }
  }

  /** Eight hex digits always fit a `u32`. */
  lemma Hex8Fits(s: string)
    requires AllHex(s) && |s| == 8
    ensures HexValue(s) < TWO_POW_32
  {
    HexValueBound(s);
    Pow16Of8();
  }

  /** The last `n` hex digits of `v`, most significant first, zero-padded. */
  function HexDigits(v: nat, n: nat): (s: string)
    ensures |s| == n && AllUpperHex(s) && AllHex(s)
  {
    if n == 0 then [] else HexDigits(v / 16, n - 1) + [UpperHexChar(v % 16)]
  }

  lemma {:induction false} HexDigitsRoundTrip(v: nat, n: nat)
    requires v < Pow16(n)
    ensures HexValue(HexDigits(v, n)) == v
  {
    if n > 0 {
      var s := HexDigits(v, n);
      assert s[..n - 1] == HexDigits(v / 16, n - 1);
      assert v / 16 < Pow16(n - 1);
      HexDigitsRoundTrip(v / 16, n - 1);
    }
  }

  /** `format!("{:08X}", v)`: exactly eight upper-case, zero-padded hex digits
      whose value is `v`. */
  function Hex8(v: u32): (s: string)
    ensures |s| == 8 && AllUpperHex(s) && AllHex(s) && HexValue(s) == v
  {
    Pow16Of8();
    HexDigitsRoundTrip(v, 8);
    HexDigits(v, 8)
  }

  /** Distinct values give distinct tokens. */
  lemma Hex8Injective(a: u32, b: u32)
    ensures Hex8(a) == Hex8(b) <==> a == b
  {
  }

  function DigitChar(d: nat): (c: char)
    requires d < 10
    ensures IsDigit(c)
  {
    ('0' as int + d) as char
  }

  function DigitValue(c: char): (d: nat)
    requires IsDigit(c)
    ensures d < 10
  {
    c as int - '0' as int
  }

  /** The big-endian value of a run of decimal digits (`str::parse` on `digit1`'s
      output, before the width check). */
  function DigitsValue(s: string): nat
    requires AllDigits(s)
  {
    if s == [] then 0 else DigitsValue(s[..|s| - 1]) * 10 + DigitValue(s[|s| - 1])
  }

  /** `format!("{}", n)` for an unsigned integer: at least one digit, no leading
      zero, and the digits denote `n`. */
  function Decimal(n: nat): (s: string)
    ensures |s| >= 1 && AllDigits(s)
    ensures DigitsValue(s) == n
    ensures s[0] == '0' ==> n == 0
  {
    if n < 10 then [DigitChar(n)]
    else
      var p := Decimal(n / 10);
      var s := p + [DigitChar(n % 10)];
      assert s[..|s| - 1] == p;
      s
  }
}
