/** Facts about products and quotients, each small enough to be proved on its own. */
module Arithmetic {
  function Abs(v: real): (r: real)
    ensures r >= 0.0
  {
    if v < 0.0 then -v else v
  }

  lemma ProductAsReal(a: nat, b: nat)
    ensures (a * b) as real == a as real * b as real
  {
  }

  lemma ScaleBelow(f: real, p: real)
    requires 0.0 <= f < 1.0 && p >= 1.0
    ensures 0.0 <= f * p < p
  {
    assert (1.0 - f) * p > 0.0;
  }

  lemma Quotient(a: real, p: real)
    requires p > 0.0
    ensures a / p * p == a
  {
  }

  lemma QuotientSign(a: real, p: real)
    requires a >= 0.0 && p > 0.0
    ensures a / p >= 0.0
  {
    Quotient(a, p);
    CancelLess(0.0, a / p, p);
  }

  lemma Distribute(a: real, b: real, p: real)
    ensures (a + b) * p == a * p + b * p && (a - b) * p == a * p - b * p && (-a) * p == -(a * p)
  {
  }

  lemma AssociateReal(a: real, b: real, c: real)
    ensures a * (b * c) == (a * b) * c
  {
  }

  lemma Associate(a: int, b: int, c: int)
    ensures a * (b * c) == (a * b) * c
  {
  }

  lemma CancelLess(a: real, b: real, p: real)
    requires p > 0.0 && a * p <= b * p
    ensures a <= b
  {
    assert a > b ==> (a - b) * p > 0.0;
  }

  lemma CancelEqual(a: real, b: real, p: real)
    requires p > 0.0 && a * p == b * p
    ensures a == b
  {
    CancelLess(a, b, p);
    CancelLess(b, a, p);
  }

  lemma ScaleLess(a: real, b: real, p: real)
    requires p > 0.0 && a <= b
    ensures a * p <= b * p
  {
    assert (b - a) * p >= 0.0;
  }

  lemma ScaleSign(v: real, p: real)
    requires p > 0.0
    ensures v < 0.0 <==> v * p < 0.0
    ensures Abs(v) * p == Abs(v * p)
  {
    if v < 0.0 { assert (-v) * p > 0.0; } else { assert v * p >= 0.0; }
    Distribute(v, 0.0, p);
  }

  lemma AtLeastOnce(a: int, p: int)
    requires a >= 1 && p >= 0
    ensures a * p >= p
  {
    assert (a - 1) * p >= 0;
  }

  lemma DistributeInt(a: int, b: int, p: int)
    ensures (a + b) * p == a * p + b * p && (a - b) * p == a * p - b * p
  {
  }

  lemma UniqueDivision(q: int, r: int, q': int, r': int, p: int)
    requires 0 <= r < p && 0 <= r' < p && q * p + r == q' * p + r'
    ensures q == q' && r == r'
  {
    DistributeInt(q, q', p);
    DistributeInt(q', q, p);
    if q < q' {
      AtLeastOnce(q' - q, p);
    } else if q' < q {
      AtLeastOnce(q - q', p);
    }
  }

  lemma AddedQuotient(q: real, r: real, p: real)
    requires p > 0.0
    ensures q + r / p == (q * p + r) / p
  {
    Distribute(q, r / p, p);
    Quotient(r, p);
    Quotient(q * p + r, p);
    CancelEqual(q + r / p, (q * p + r) / p, p);
  }

  lemma NegatedQuotient(a: real, p: real)
    requires p > 0.0
    ensures -(a / p) == (-a) / p
  {
    Quotient(a, p);
    Quotient(-a, p);
    Distribute(a / p, 0.0, p);
    CancelEqual(-(a / p), (-a) / p, p);
  }

  lemma Regroup(n: real, p: real, k: real)
    requires p > 0.0
    ensures n / p * (p * k) == n * k
  {
    Quotient(n, p);
    AssociateReal(n / p, p, k);
  }

  lemma AboveScaled(v: real, p: real)
    requires p > 0.0
    ensures v * p > p <==> v > 1.0
  {
    if v > 1.0 { assert (v - 1.0) * p > 0.0; } else { ScaleLess(v, 1.0, p); }
  }

  lemma AboveOnce(q: nat, r: nat, p: nat)
    requires r < p
    ensures q * p + r > p <==> q > 1 || (q == 1 && r > 0)
  {
    if q > 1 {
      AtLeastOnce(q - 1, p);
      DistributeInt(q - 1, 1, p);
    }
  }

  function Times(a: real, b: real): real {
    a * b
  }

  lemma TimesOne(a: real)
    ensures Times(a, 1.0) == a
  {
  }
}
