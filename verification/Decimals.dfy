/** Numbers as the program writes them into names and labels. */
module Decimals {
  function Decimal(n: nat): (s: string)
    ensures s != ""
  {
    if n < 10 then ["0123456789"[n]] else Decimal(n / 10) + ["0123456789"[n % 10]]
  }

  /** str(i) */
  function Text(i: int): (s: string)
    ensures s != ""
  {
    if i < 0 then "-" + Decimal(-i) else Decimal(i)
  }

  /** The value of a string of decimal digits. */
  function Value(s: string): int {
    if s == "" then 0 else 10 * Value(s[..|s| - 1]) + (s[|s| - 1] as int - '0' as int)
  }

  lemma {:induction false} DecimalIsRead(n: nat)
    ensures Value(Decimal(n)) == n && forall i :: 0 <= i < |Decimal(n)| ==> '0' <= Decimal(n)[i] <= '9'
  {
    if n < 10 {
      assert Decimal(n)[..0] == "";
    } else {
      DecimalIsRead(n / 10);
      assert Decimal(n)[..|Decimal(n)| - 1] == Decimal(n / 10);
    }
  }

  lemma DecimalInjective(a: nat, b: nat)
    requires Decimal(a) == Decimal(b)
    ensures a == b
  {
    DecimalIsRead(a);
    DecimalIsRead(b);
  }

  lemma TextStart(i: int)
    ensures '0' <= Text(i)[0] <= '9' || Text(i)[0] == '-'
    ensures Text(i)[0] == '-' <==> i < 0
  {
    if i >= 0 { DecimalIsRead(i); }
  }

  lemma TextInjective(i: int, j: int)
    requires Text(i) == Text(j)
    ensures i == j
  {
    TextStart(i);
    TextStart(j);
    if i < 0 {
      assert Text(i)[1..] == Decimal(-i) && Text(j)[1..] == Decimal(-j);
      DecimalInjective(-i, -j);
    } else {
      DecimalInjective(i, j);
    }
  }
}
