/** What several components share. */
module Basics {

  datatype Option<+T> = None | Some(value: T)

  /** The number of values of a 64-bit word. */
  const WORD: nat := 0x1_0000_0000_0000_0000

  // ------------------------------------------------------------- decimal text

  predicate IsDigit(c: char) { '0' <= c <= '9' }

  function DigitOf(c: char): nat { if IsDigit(c) then c as int - '0' as int else 0 }

  /** The number denoted by the digits `s` written after those of n. */
  ghost function DecimalFrom(n: nat, s: string): nat {
    if s == "" then n else 10 * DecimalFrom(n, s[..|s| - 1]) + DigitOf(s[|s| - 1])
  }

  ghost function Decimal(s: string): nat { DecimalFrom(0, s) }

  ghost predicate IsNumber(s: string) { s != "" && forall i | 0 <= i < |s| :: IsDigit(s[i]) }

  /** Reading from the front instead. */
  lemma {:induction false} DecimalFront(n: nat, s: string)
    requires s != ""
    ensures DecimalFrom(n, s) == DecimalFrom(10 * n + DigitOf(s[0]), s[1..])
    decreases |s|
  {
    var p := s[..|s| - 1];
    if p == "" {
      assert s[1..] == "";
    } else {
      DecimalFront(n, p);
      assert s[1..][..|s[1..]| - 1] == p[1..];
    }
  }

  lemma {:induction false} DecimalGrows(n: nat, s: string)
    ensures DecimalFrom(n, s) >= n
    decreases |s|
  {
    if s != "" {
      DecimalGrows(n, s[..|s| - 1]);
    }
  }

  lemma DecimalStep(s: string, d: char)
    ensures Decimal(s + [d]) == 10 * Decimal(s) + DigitOf(d)
  {
    assert (s + [d])[..|s|] == s;
  }
}
