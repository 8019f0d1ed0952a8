/** Facts about products and floor division that the solver needs spelled out. */
module Arithmetic {

  lemma MulMonotone(x: int, y: int, d: int)
    requires x <= y && 0 <= d
    ensures x * d <= y * d
  {
  }

  lemma MulSuccessor(q: int, x: int)
    ensures (q + 1) * x == q * x + x
  {
  }

  lemma DivMonotone(a: int, b: int, d: int)
    requires a <= b && 0 < d
    ensures a / d <= b / d
  {
    var x, y := a / d, b / d;
    assert a == x * d + a % d && b == y * d + b % d;
    if y < x {
      MulMonotone(y + 1, x, d);
      assert false;
    }
  }

  lemma DivExact(x: int, d: int)
    requires 0 < d
    ensures x * d / d == x
  {
    var n := x * d;
    var q := n / d;
    assert n == q * d + n % d;
    if q < x {
      MulMonotone(q + 1, x, d);
    } else {
      MulMonotone(x, q, d);
      if x < q { MulMonotone(x + 1, q, d); }
    }
  }

  lemma DivAtMost(total: int, k: int, d: int)
    requires 0 <= total && 0 <= k <= d && 0 < d
    ensures 0 <= total * k / d <= total
  {
    var x := total * k;
    MulMonotone(0, k, total);
    MulMonotone(k, d, total);
    DivExact(total, d);
    DivMonotone(0, x, d);
    DivMonotone(x, total * d, d);
    assert 0 / d == 0;
  }

  lemma RemainderOf(q: nat, r: nat, d: nat)
    requires r < d
    ensures (q * d + r) % d == r
  {
    var n := q * d + r;
    var k := n / d;
    assert n == k * d + n % d;
    if k < q {
      MulMonotone(k + 1, q, d);
      assert false;
    } else if q < k {
      MulMonotone(q + 1, k, d);
      assert false;
    }
  }

  /** Division rounded up. */
  function CeilDiv(n: int, d: int): int
    requires 0 < d
  {
    (n + d - 1) / d
  }

  lemma FloorGalois(v: int, n: int, d: int)
    requires 0 < d
    ensures v <= n / d <==> v * d <= n
  {
    var q := n / d;
    assert n == q * d + n % d;
    if v <= q {
      MulMonotone(v, q, d);
    } else {
      MulMonotone(q + 1, v, d);
    }
  }

  lemma CeilGalois(n: int, d: int, k: int)
    requires 0 < d
    ensures CeilDiv(n, d) <= k <==> n <= d * k
  {
    FloorGalois(k + 1, n + d - 1, d);
    MulSuccessor(k, d);
  }
}
