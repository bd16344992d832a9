/** The few facts about products and quotients that the share and scale arguments need. */
module Arithmetic {

  lemma MulKeepsOrder(a: int, b: int, c: int)
    requires a <= b && c >= 0
    ensures a * c <= b * c
  {
  }

  lemma CancelOrder(a: int, b: int, c: int)
    requires c > 0 && a * c <= b * c
    ensures a <= b
  {
    assert (b + 1) * c == b * c + c;
    if a > b {
      MulKeepsOrder(b + 1, a, c);
      assert false;
    }
  }

  lemma Divided(a: int, b: int)
    requires b > 0
    ensures a / b * b <= a < (a / b + 1) * b
  {
    assert a == a / b * b + a % b;
    assert (a / b + 1) * b == a / b * b + b;
  }

  /** q is at most a/b exactly when q*b is at most a. */
  lemma AtMostQuotient(q: int, a: int, b: int)
    requires b > 0 && q * b <= a
    ensures q <= a / b
  {
    Divided(a, b);
    if q > a / b {
      MulKeepsOrder(a / b + 1, q, b);
      assert false;
    }
  }

  lemma QuotientIsUnique(a: int, b: int, q: int)
    requires b > 0 && q * b <= a < (q + 1) * b
    ensures a / b == q
  {
    AtMostQuotient(q, a, b);
    Divided(a, b);
    var d := a / b;
    if d > q {
      MulKeepsOrder(q + 1, d, b);
      assert false;
    }
  }

  lemma Add(a: int, b: int, c: int)
    ensures (a + b) * c == a * c + b * c
    ensures c * (a + b) == c * a + c * b
  {
  }

  lemma Regroup(a: int, b: int, c: int)
    ensures a * (b * c) == (a * b) * c
    ensures a * (b * c) == (a * c) * b
  {
  }
}
