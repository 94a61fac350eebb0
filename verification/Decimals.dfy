/** Decimal rendering of identifiers, as in `osm-node-17`, and reading them back. */
module Decimals {

  const DIGITS := "0123456789"

  function Decimal(n: nat): string {
    if n < 10 then [DIGITS[n]] else Decimal(n / 10) + [DIGITS[n % 10]]
  }

  function DigitValue(c: char): int {
    if '0' <= c <= '9' then (c - '0') as int else 0
  }

  function ReadDecimal(s: string): int {
    if s == [] then 0 else 10 * ReadDecimal(s[..|s| - 1]) + DigitValue(s[|s| - 1])
  }

  lemma DigitReadsBack(d: nat)
    requires d < 10
    ensures DigitValue(DIGITS[d]) == d
  {}

  lemma {:induction false} ReadDecimalUndoesDecimal(n: nat)
    ensures ReadDecimal(Decimal(n)) == n
  {
    if n < 10 {
      DigitReadsBack(n);
      assert Decimal(n)[..0] == "";
    } else {
      ReadDecimalUndoesDecimal(n / 10);
      var front := Decimal(n / 10);
      assert (front + [DIGITS[n % 10]])[..|front|] == front;
      DigitReadsBack(n % 10);
    }
  }

  /** An identifier as Python formats it. */
  function IntText(n: int): string {
    if n < 0 then "-" + Decimal(-n) else Decimal(n)
  }
}
