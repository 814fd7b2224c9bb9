/** Retry pauses grow by powers of two; keys and season ids write numbers in decimal. */
module Numbers {

  function Least(a: int, b: int): int {
    if a < b then a else b
  }

  function PowerOfTwo(n: nat): nat {
    if n == 0 then 1 else 2 * PowerOfTwo(n - 1)
  }

  lemma {:induction false} PowersGrow(m: nat, n: nat)
    requires m <= n
    ensures 1 <= PowerOfTwo(m) <= PowerOfTwo(n)
    decreases n
  {
    if m < n {
      PowersGrow(m, n - 1);
    } else if n > 0 {
      PowersGrow(m - 1, n - 1);
    }
  }

  // ----- Decimal numbers -----

  ghost predicate NulFree(s: string) {
    '\0' !in s
  }

  function Digit(d: nat): char
    requires d < 10
  {
    "0123456789"[d]
  }

  function Decimal(n: nat): (s: string)
    ensures |s| > 0 && NulFree(s)
  {
    if n < 10 then [Digit(n)] else Decimal(n / 10) + [Digit(n % 10)]
  }

  lemma {:induction false} DecimalIsInjective(m: nat, n: nat)
    requires Decimal(m) == Decimal(n)
    ensures m == n
  {
    var (s, u) := (Decimal(m), Decimal(n));
    assert s[|s| - 1] == Digit(m % 10) && u[|u| - 1] == Digit(n % 10);
    if m >= 10 && n >= 10 {
      assert s[..|s| - 1] == Decimal(m / 10) && u[..|u| - 1] == Decimal(n / 10);
      DecimalIsInjective(m / 10, n / 10);
    }
  }
}
