/** Decimal numerals: what `printf` writes for an unsigned number and what `strtoul` reads. */
module Numerals {
  import opened CText

  const WORD: nat := 0x1_0000_0000_0000_0000

  /** What a C `int` of 32 bits holds after a larger number is stored in it. */
  function AsInt(n: int): int {
    var w := n % 0x1_0000_0000;
    if w < 0x8000_0000 then w else w - 0x1_0000_0000
  }

  function Digit(n: nat): char
    requires n < 10
  {
    ('0' as int + n) as char
  }

  function Numeral(n: nat): (s: string)
    ensures s != "" && AllDigits(s)
  {
    if n < 10 then [Digit(n)] else Numeral(n / 10) + [Digit(n % 10)]
  }

  /** The number that a sequence of digits denotes. */
  function DigitsValue(s: string): nat
    requires AllDigits(s)
  {
    if s == "" then 0
    else 10 * DigitsValue(s[..|s| - 1]) + (s[|s| - 1] as int - '0' as int)
  }

  lemma {:induction false} ValueOfNumeral(n: nat)
    ensures DigitsValue(Numeral(n)) == n
  {
    if n >= 10 {
      ValueOfNumeral(n / 10);
      var s := Numeral(n);
      assert s[..|s| - 1] == Numeral(n / 10);
    }
  }

  lemma NumeralInjective(m: nat, n: nat)
    requires Numeral(m) == Numeral(n)
    ensures m == n
  {
    ValueOfNumeral(m);
    ValueOfNumeral(n);
  }

  function Power10(k: nat): nat {
    if k == 0 then 1 else 10 * Power10(k - 1)
  }

  lemma {:induction false} NumeralLength(n: nat, k: nat)
    requires k >= 1 && n < Power10(k)
    ensures |Numeral(n)| <= k
  {
    if n >= 10 { NumeralLength(n / 10, k - 1); }
  }

  /** `strtoul` with base 10 on a 64-bit machine: leading space and one sign are skipped, no digits give zero,
      a value that does not fit is the largest one, and a minus sign wraps around. */
  function Strtoul(t: string): (n: nat)
    ensures n < WORD
  {
    var i := FirstInk(t, 0, |t|);
    var j := if At(t, i) == '+' || At(t, i) == '-' then i + 1 else i;
    var v := DigitsValue(t[j..DigitsEnd(t, j)]);
    if v >= WORD then WORD - 1
    else if At(t, i) == '-' then (WORD - v) % WORD
    else v
  }

  /** A numeral is read back, whatever follows it. */
  lemma StrtoulOfNumeral(n: nat, tail: string)
    requires n < WORD && (tail == "" || !IsDigit(tail[0]))
    ensures Strtoul(Numeral(n) + tail) == n
  {
    var s := Numeral(n);
    var t := s + tail;
    assert IsDigit(t[0]);
    assert FirstInk(t, 0, |t|) == 0;
    assert DigitsEnd(t, 0) == |s| by {
      assert forall k :: 0 <= k < |s| ==> IsDigit(t[k]);
      assert !IsDigit(At(t, |s|));
    }
    assert t[0..|s|] == s;
    ValueOfNumeral(n);
  }
}
