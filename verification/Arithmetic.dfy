/** Facts about products, quotients and remainders that the solver does not find by itself. */
module Arithmetic {

  lemma DivMod(a: nat, m: nat)
    requires m > 0
    ensures a == (a / m) * m + a % m && a % m < m
  {
  }

  lemma MulBound(d: int, m: nat)
    requires m > 0
    ensures d > 0 ==> d * m >= m
    ensures d < 0 ==> d * m <= -(m as int)
  {
  }

  lemma MulMonotone(a: nat, b: nat, m: nat)
    requires a <= b
    ensures a * m <= b * m
  {
    assert (b - a) * m >= 0;
    assert b * m == a * m + (b - a) * m;
  }

  /** Quotient and remainder are determined by their sum. */
  lemma DivModUnique(a: nat, q: nat, m: nat, r: nat)
    requires m > 0 && r < m && a == q * m + r
    ensures a / m == q && a % m == r
  {
    DivMod(a, m);
    var d := a / m - q;
    assert d * m == (a / m) * m - q * m;
    MulBound(d, m);
  }

  lemma QuotientUnique(a: nat, q: nat, m: nat)
    requires m > 0 && q * m <= a < q * m + m
    ensures a / m == q
  {
    DivModUnique(a, q, m, a - q * m);
  }

  lemma DivMono(a: nat, b: nat, m: nat)
    requires m > 0 && a <= b
    ensures a / m <= b / m
  {
    DivMod(a, m);
    DivMod(b, m);
    if a / m > b / m {
      MulMonotone(b / m + 1, a / m, m);
    }
  }

  lemma FitsIff(k: nat, step: nat, room: nat)
    requires step > 0
    ensures k * step <= room <==> k <= room / step
  {
    DivMod(room, step);
    if k <= room / step {
      MulMonotone(k, room / step, step);
    } else {
      MulMonotone(room / step + 1, k, step);
      assert (room / step + 1) * step == (room / step) * step + step;
    }
  }

  lemma DivDiv(n: nat, a: nat, b: nat)
    requires a > 0 && b > 0
    ensures a * b > 0 && n / a / b == n / (a * b)
  {
    var q, r := n / a / b, n / a % b;
    DivMod(n, a);
    DivMod(n / a, b);
    assert n == (q * b + r) * a + n % a;
    assert (q * b + r) * a == q * (a * b) + r * a;
    MulMonotone(r, b - 1, a);
    assert (b - 1) * a == a * b - a;
    DivModUnique(n, q, a * b, r * a + n % a);
  }
}
