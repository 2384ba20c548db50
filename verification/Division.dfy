/** Quotients and remainders of natural numbers, for round-robin dispatch and for sharding. */
module Division {

  lemma MultiplyMonotone(a: int, b: int, d: nat)
    requires a <= b
    ensures a * d <= b * d
  {
  }

  lemma Quotient(x: nat, d: nat, q: nat, r: nat)
    requires r < d && x == q * d + r
    ensures x / d == q && x % d == r
  {
    var p := x / d;
    assert x == p * d + x % d;
    if p > q {
      MultiplyMonotone(q + 1, p, d);
    } else if p < q {
      MultiplyMonotone(p + 1, q, d);
    }
  }
}
