// Facts about products and quotients of reals.

module RealFacts {
  // Products with one positive factor compare as the other factors do.
  lemma CompareFactors(x: real, y: real, b: real, xb: real, yb: real)
    requires b > 0.0 && x * b == xb && y * b == yb
    ensures xb < yb ==> x < y
    ensures xb <= yb ==> x <= y
  {
    if x > y {
      assert (x - y) * b > 0.0;
    } else if x == y {
      assert xb == yb;
    }
  }

  lemma QuotientBelow(a: real, b: real, u: real)
    requires 0.0 < a < b && a <= u * b
    ensures 0.0 < a / b < 1.0 && a / b <= u
  {
    var d := a / b;
    CompareFactors(d, 1.0, b, a, b);
    CompareFactors(d, u, b, a, u * b);
    CompareFactors(0.0, d, b, 0.0, a);
  }

  lemma QuotientTimes(a: real, b: real)
    requires a > 0.0 && b > 0.0
    ensures a / b > 0.0 && (a / b) * b == a
  {
    CompareFactors(0.0, a / b, b, 0.0, a);
  }

  lemma MultipliesMonotone(e: real, x: real, y: real)
    requires e > 0.0 && 0.0 < x <= y
    ensures 0.0 < e * x <= e * y
  {
  }

  lemma OneLessProduct(e: real, a: real, b: real, p: real, t: real)
    requires e > 0.0 && 0.0 < a <= b && e * b == 1.0 - p && t == 1.0 - e * a
    ensures p <= t < 1.0
  {
    var x, y := e * a, e * b;
    assert 0.0 < x;
    assert e * (b - a) >= 0.0;
    assert y - x == e * (b - a);
  }

  lemma ZeroOver(x: real)
    requires x != 0.0
    ensures 0.0 / x == 0.0
  {
  }

  lemma DivideSum(a: real, b: real, z: real)
    requires z != 0.0
    ensures (a + b) / z == a / z + b / z
  {
  }

  lemma DivideMonotone(a: real, b: real, z: real)
    requires z > 0.0 && a <= b
    ensures a / z <= b / z
  {
  }

  lemma FloorBelow(u: real, n: nat)
    requires 0.0 <= u < 1.0 && n > 0
    ensures 0 <= (u * n as real).Floor < n
  {
    assert (1.0 - u) * n as real > 0.0;
  }
}
