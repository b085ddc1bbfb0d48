/** Numbers written in decimal, as `String(n)` and `f"{n}"` write them. */
module Decimals {
  function Digit(d: nat): char
    requires d < 10
  {
    "0123456789"[d]
  }

  function Decimal(n: nat): string {
    if n < 10 then [Digit(n)] else Decimal(n / 10) + [Digit(n % 10)]
  }

  lemma {:induction false} DecimalIsDigits(n: nat)
    ensures |Decimal(n)| >= 1 && forall i | 0 <= i < |Decimal(n)| :: '0' <= Decimal(n)[i] <= '9'
  {
    if n >= 10 {
      DecimalIsDigits(n / 10);
    }
  }

  lemma {:induction false} DecimalIsInjective(m: nat, n: nat)
    requires Decimal(m) == Decimal(n)
    ensures m == n
  {
    if m >= 10 {
      DecimalIsDigits(m / 10);
    }
    if n >= 10 {
      DecimalIsDigits(n / 10);
    }
    if m >= 10 && n >= 10 {
      var p, q := Decimal(m), Decimal(n);
      assert p[..|p| - 1] == Decimal(m / 10) && q[..|q| - 1] == Decimal(n / 10);
      DecimalIsInjective(m / 10, n / 10);
      assert p[|p| - 1] == Digit(m % 10) && q[|q| - 1] == Digit(n % 10);
    }
  }

  /** The number that a string of digits stands for. */
  function ValueOf(s: string): int {
    if s == "" then 0 else 10 * ValueOf(s[..|s| - 1]) + (s[|s| - 1] as int - '0' as int)
  }

  /** Writing a number in decimal and reading it again gives it back; there is no leading zero. */
  lemma {:induction false} DecimalReadsBack(n: nat)
    ensures ValueOf(Decimal(n)) == n && (n > 0 ==> Decimal(n)[0] != '0')
  {
    var s := Decimal(n);
    if n >= 10 {
      DecimalReadsBack(n / 10);
      DecimalIsDigits(n / 10);
      assert s[..|s| - 1] == Decimal(n / 10);
    } else {
      assert s[..|s| - 1] == "";
    }
    assert s[|s| - 1] == Digit(n % 10);
  }
}
