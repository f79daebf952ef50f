/** Facts about Euclidean division that the proofs about the timer's
    millisecond arithmetic use. */
module Arithmetic {

  /** `(a / b) / c == a / (b * c)` and the remainders that go with it. */
  lemma DivDivMod(a: nat, b: nat, c: nat)
    requires b > 0 && c > 0
    ensures (a / b) / c == a / (b * c)
    ensures a % (b * c) == b * ((a / b) % c) + a % b
  {
    var q, r := a / b, a % b;
    var q2, r2 := q / c, q % c;
    assert a == b * q + r;
    assert q == c * q2 + r2;
    Regroup(b, c, q2, r2, r);
    RemainderBelow(b, c, r2, r);
    DivModUnique(a, b * c, q2, b * r2 + r);
  }

  /** Regrouping `b * (c * q2 + r2) + r` around the product `b * c`. */
  lemma Regroup(b: int, c: int, q2: int, r2: int, r: int)
    ensures b * (c * q2 + r2) + r == (b * c) * q2 + (b * r2 + r)
  {
    assert b * (c * q2 + r2) == b * (c * q2) + b * r2;
    assert b * (c * q2) == (b * c) * q2;
  }

  /** The combined remainder stays below the combined divisor. */
  lemma RemainderBelow(b: int, c: int, r2: int, r: int)
    requires 0 <= r2 < c && 0 <= r < b
    ensures 0 <= b * r2 + r < b * c
  {
    assert b * r2 + b == b * (r2 + 1);
    assert b * (r2 + 1) <= b * c;
  }

  /** Euclidean division has exactly one quotient and remainder. */
  lemma DivModUnique(a: int, d: int, q: int, r: int)
    requires d > 0 && 0 <= r < d && a == d * q + r
    ensures a / d == q && a % d == r
  {
    var q', r' := a / d, a % d;
    var k := q - q';
    assert d * q == d * q' + d * k;
    assert d * k == r' - r;
  }
}
