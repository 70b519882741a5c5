/** Facts about quotients and remainders by a divisor that is not a constant. */
module Arithmetic {

  lemma {:induction false} MulGrows(m: nat, a: nat, b: nat)
    requires a <= b
    ensures m * a <= m * b
  {
  }

  lemma {:induction false} DivModUnique(a: nat, m: nat, q: nat, r: nat)
    requires m > 0 && r < m && a == m * q + r
    ensures a / m == q && a % m == r
  {
    var p := a / m;
    assert a == m * p + a % m;
    if p < q {
      MulGrows(m, p + 1, q);
    } else if q < p {
      MulGrows(m, q + 1, p);
    }
  }

  lemma {:induction false} DivModStep(n: nat, m: nat)
    requires m > 0
    ensures n % m == m - 1 ==> (n + 1) / m == n / m + 1 && (n + 1) % m == 0
    ensures n % m != m - 1 ==> (n + 1) / m == n / m && (n + 1) % m == n % m + 1
  {
    var q, r := n / m, n % m;
    assert n == m * q + r;
    if r == m - 1 {
      assert m * (q + 1) == m * q + m;
      DivModUnique(n + 1, m, q + 1, 0);
    } else {
      DivModUnique(n + 1, m, q, r + 1);
    }
  }

  lemma {:induction false} ModPlusModulus(a: nat, m: nat)
    requires m > 0
    ensures (a + m) % m == a % m && (a + m) / m == a / m + 1
  {
    assert m * (a / m + 1) == m * (a / m) + m;
    DivModUnique(a + m, m, a / m + 1, a % m);
  }

  lemma {:induction false} ModPlusMultiple(a: nat, k: nat, m: nat)
    requires m > 0
    ensures (a + m * k) % m == a % m
  {
    if k > 0 {
      ModPlusMultiple(a, k - 1, m);
      assert m * k == m * (k - 1) + m;
      ModPlusModulus(a + m * (k - 1), m);
    }
  }

  lemma {:induction false} DivMonotone(a: nat, b: nat, m: nat)
    requires m > 0 && a <= b
    ensures a / m <= b / m
  {
    if b / m < a / m {
      MulGrows(m, b / m + 1, a / m);
    }
  }

  /** ceil(n / m). */
  function CeilDiv(n: nat, m: nat): nat
    requires m > 0
  {
    n / m + (if n % m == 0 then 0 else 1)
  }

  lemma {:induction false} CeilDivStep(n: nat, m: nat)
    requires m > 0
    ensures CeilDiv(n + 1, m) == CeilDiv(n, m) + (if n % m == 0 then 1 else 0)
  {
    DivModStep(n, m);
  }

  lemma {:induction false} QuotientPositive(a: real, b: real)
    requires a > 0.0 && b > 0.0
    ensures a / b > 0.0
  {
  }
}
