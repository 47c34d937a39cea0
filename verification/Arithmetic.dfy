/** Division by a variable. */
module Arithmetic {

  lemma MulGrows(d: nat, x: nat, y: nat)
    requires x < y
    ensures d * x + d <= d * y
  {
    var k := y - x - 1;
    assert d * y == d * x + d + d * k;
  }

  lemma QuotientIsUnique(n: nat, d: nat, q: nat, r: nat)
    requires r < d && n == d * q + r
    ensures n / d == q
  {
    if q < n / d {
      MulGrows(d, q, n / d);
      assert false;
    } else if n / d < q {
      MulGrows(d, n / d, q);
      assert false;
    }
  }

  lemma QuotientMonotone(a: nat, b: nat, d: nat)
    requires a <= b && d > 0
    ensures a / d <= b / d
  {
    if b / d < a / d {
      MulGrows(d, b / d, a / d);
      assert false;
    }
  }

  lemma QuotientOfSum(a: nat, k: nat, d: nat)
    requires d > 0
    ensures (a + d * k) / d == a / d + k
  {
    assert a == d * (a / d) + a % d;
    assert d * (a / d + k) == d * (a / d) + d * k;
    QuotientIsUnique(a + d * k, d, a / d + k, a % d);
  }

  lemma TenTimes(b: nat, q: nat)
    ensures (10 * b) * q == 10 * (b * q)
  {
  }

  lemma QuotientByTen(n: nat, b: nat)
    requires b > 0
    ensures n / 10 / b == n / (10 * b)
  {
    var m := n / 10;
    var q, x := m / b, m % b;
    var y := b * q;
    assert m == y + x;
    assert n == 10 * y + (10 * x + n % 10);
    TenTimes(b, q);
    QuotientIsUnique(n, 10 * b, q, 10 * x + n % 10);
  }
}
