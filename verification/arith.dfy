/** Facts about Euclidean division that the solver does not find alone. */
module Arith {

  lemma MulAtLeast(k: int, b: int)
    requires k >= 1 && b >= 0
    ensures k * b >= b
  {}

  lemma MulMono(a: int, b: int, c: int)
    requires 0 <= a <= b && c >= 0
    ensures a * c <= b * c
  {}

  /** Division and remainder are determined by any decomposition a == q*b + r with 0 <= r < b. */
  lemma DivMod(a: int, b: int, q: int, r: int)
    requires b > 0 && 0 <= r < b && a == q * b + r
    ensures a / b == q && a % b == r
  {
    var q', r' := a / b, a % b;
    assert a == q' * b + r';
    assert (q - q') * b == r' - r;
    if q > q' { MulAtLeast(q - q', b); }
    else if q < q' { MulAtLeast(q' - q, b); }
  }

  lemma DivMono(a: int, b: int, d: int)
    requires a <= b && d > 0
    ensures a / d <= b / d
  {
    var qa, qb := a / d, b / d;
    assert a == qa * d + a % d;
    assert b == qb * d + b % d;
    if qa > qb {
      MulAtLeast(qa - qb, d);
    }
  }

  /** g*r/(m+1) stays below g while r <= m. */
  lemma ScaledBelow(g: int, r: int, m: int)
    requires g >= 1 && 0 <= r <= m
    ensures 0 <= g * r / (m + 1) < g
  {
    assert g * r <= g * m;
    assert g * m < g * (m + 1);
    DivMono(0, g * r, m + 1);
    DivMono(g * r, g * (m + 1) - 1, m + 1);
    DivMod(g * (m + 1) - 1, m + 1, g - 1, m);
  }

  /** Floor division times the divisor never exceeds the dividend. */
  lemma DivTimes(a: int, b: int)
    requires a >= 0 && b > 0
    ensures (a / b) * b <= a
  {
    assert a == (a / b) * b + a % b;
  }

  /** Adding k before or after reducing modulo m gives the same residue. */
  lemma ModShift(a: int, k: int, m: int)
    requires m > 0
    ensures ((a % m) + k) % m == (a + k) % m
  {
    var q, r := a / m, a % m;
    var q2, r2 := (r + k) / m, (r + k) % m;
    assert a == q * m + r;
    assert r + k == q2 * m + r2;
    DivMod(a + k, m, q + q2, r2);
  }
}
