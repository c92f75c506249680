/** The few facts about division by a symbolic interval that the schedule and
    limiter arguments share. */
module Arith {
  lemma DivByDefinition(x: int, d: int, q: int)
    requires d > 0
    requires q * d <= x < q * d + d
    ensures x / d == q
  {
    var k := x / d;
    assert x == k * d + x % d;
    assert k < q ==> (k + 1) * d <= q * d;
    assert k > q ==> (q + 1) * d <= k * d;
  }

  /** One more whole interval is one more in the quotient. */
  lemma DivStep(x: int, y: int, d: int)
    requires d > 0 && x + d <= y
    ensures x / d + 1 <= y / d
  {
    var k := x / d;
    assert x == k * d + x % d;
    DivAtLeast(y, d, k + 1);
  }

  lemma DivMonotone(x: int, y: int, d: int)
    requires d > 0 && x <= y
    ensures x / d <= y / d
  {
    var k := x / d;
    assert x == k * d + x % d;
    DivAtLeast(y, d, k);
  }

  lemma DivAtLeast(x: int, d: int, q: int)
    requires d > 0 && q * d <= x
    ensures q <= x / d
  {
    var k := x / d;
    assert x == k * d + x % d;
    assert k < q ==> (k + 1) * d <= q * d;
  }

  lemma DivAtMost(x: int, d: int, q: int)
    requires d > 0 && x < (q + 1) * d
    ensures x / d <= q
  {
    var k := x / d;
    assert x == k * d + x % d;
    assert k > q ==> (q + 1) * d <= k * d;
  }

  lemma DivBounds(x: int, d: int)
    requires d > 0
    ensures x / d * d <= x < x / d * d + d
  {
    assert x == x / d * d + x % d;
  }

  lemma HalfTimesDouble(q: nat, d: nat)
    ensures q / 2 * (2 * d) <= q * d
    ensures q * d + d <= q / 2 * (2 * d) + 2 * d
  {
    var h := q / 2;
    assert h * (2 * d) == (h * 2) * d;
    if q % 2 == 0 {
      assert q == h * 2;
    } else {
      assert q == h * 2 + 1;
      assert q * d == (h * 2) * d + d;
    }
  }

  /** Half of a quotient is the quotient by the double. */
  lemma HalfQuotient(x: nat, d: nat, q: nat)
    requires d > 0 && q == x / d
    ensures q / 2 == x / (2 * d)
  {
    DivBounds(x, d);
    HalfTimesDouble(q, d);
    DivByDefinition(x, 2 * d, q / 2);
  }
}
