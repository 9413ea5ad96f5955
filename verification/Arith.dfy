/** Division with remainder: what alignment and modular indices need. */
module Arith {
  lemma {:induction false} MulMonotone(a: int, b: int, m: nat)
    requires a <= b
    ensures a * m <= b * m
  {
  }

  /** Quotient and remainder are unique. */
  lemma {:induction false} DivUnique(x: int, q: int, r: int, m: nat)
    requires m > 0 && 0 <= r < m && x == q * m + r
    ensures x / m == q && x % m == r
  {
    var q1, r1 := x / m, x % m;
    assert x == q1 * m + r1;
    if q > q1 {
      MulMonotone(q1 + 1, q, m);
    } else if q < q1 {
      MulMonotone(q + 1, q1, m);
    }
  }

  lemma {:induction false} MultipleMod(k: int, m: nat)
    requires m > 0
    ensures (k * m) % m == 0
  {
    DivUnique(k * m, k, 0, m);
  }

  /** Adding less than what is missing to the next multiple does not wrap. */
  lemma {:induction false} ModAdd(x: int, y: int, m: nat)
    requires m > 0 && 0 <= x % m + y < m
    ensures (x + y) % m == x % m + y
  {
    DivUnique(x + y, x / m, x % m + y, m);
  }

  lemma {:induction false} ModShift(x: int, m: nat)
    requires m > 0
    ensures (x + m) % m == x % m && (x - m) % m == x % m
  {
    assert (x / m + 1) * m == x / m * m + m && (x / m - 1) * m == x / m * m - m;
    DivUnique(x + m, x / m + 1, x % m, m);
    DivUnique(x - m, x / m - 1, x % m, m);
  }
}
