/** Facts about multiplication and Euclidean division by a positive number. */
module Arith {

  /** Multiplying by a natural number keeps the order. */
  lemma {:induction false} MulMonotone(n: nat, a: int, b: int)
    requires a <= b
    ensures n * a <= n * b
    decreases b - a
  {
    if a < b {
      MulMonotone(n, a, b - 1);
      assert n * b == n * (b - 1) + n;
    }
  }

  /** Distinct multiples of `n` are at least `n` apart. */
  lemma MulGap(n: nat, a: int, b: int)
    requires a < b
    ensures n * a + n <= n * b
  {
    MulMonotone(n, a + 1, b);
    assert n * (a + 1) == n * a + n;
  }

  /** Quotient and remainder are the only pair with `n == d * q + r` and `0 <= r < d`. */
  lemma DivUnique(n: int, d: nat, q: int, r: int)
    requires d >= 1 && n == d * q + r && 0 <= r < d
    ensures n / d == q && n % d == r
  {
    var q' := n / d;
    if q' > q {
      MulGap(d, q, q');
      assert false;
    } else if q' < q {
      MulGap(d, q', q);
      assert false;
    }
  }

  /** Going from `n - 1` to `n` the quotient grows exactly when `d` divides `n`. */
  lemma DivStep(n: int, d: nat)
    requires d >= 1
    ensures n / d == (n - 1) / d + (if n % d == 0 then 1 else 0)
    ensures (n + d - 1) / d == (n - 1) / d + 1
  {
    var q := (n - 1) / d;
    var r := (n - 1) % d;
    assert n - 1 == d * q + r;
    assert d * (q + 1) == d * q + d;
    DivUnique(n + d - 1, d, q + 1, r);
    if r + 1 == d {
      DivUnique(n, d, q + 1, 0);
    } else {
      DivUnique(n, d, q, r + 1);
    }
  }
}
