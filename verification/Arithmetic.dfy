/** Integer arithmetic the kernels need: magnitudes, C's division, and the bounds of products and quotients. */
module Arithmetic {
  /** v is a C int. */
  predicate Int32(v: int) { -0x8000_0000 <= v < 0x8000_0000 }

  function Magnitude(n: int): int { if n < 0 then -n else n }

  /** C's division, which truncates toward zero. */
  function TruncDiv(a: int, b: int): int
    requires b > 0
  {
    if a >= 0 then a / b else -((-a) / b)
  }

  /** q is a / b cut off toward zero: what remains is smaller than b and has a's sign. */
  predicate Truncates(q: int, a: int, b: int) {
    Magnitude(a - q * b) < b && (a >= 0 ==> a - q * b >= 0) && (a <= 0 ==> a - q * b <= 0)
  }

  lemma TruncDivTruncates(a: int, b: int)
    requires b > 0
    ensures Truncates(TruncDiv(a, b), a, b)
  {
    if a >= 0 {
      Remains(a, b, a / b, a % b);
    } else {
      Remains(-a, b, (-a) / b, (-a) % b);
      assert -((-a) / b) * b == -((-a) / b * b);
    }
  }

  lemma Remains(a: nat, b: int, q: int, r: int)
    requires a == b * q + r && 0 <= r < b
    ensures 0 <= a - q * b < b
  {
    assert q * b == b * q;
  }

  /** Nothing else does. */
  lemma TruncatesOnce(p: int, q: int, a: int, b: int)
    requires Truncates(p, a, b) && Truncates(q, a, b)
    ensures p == q
  {
    if p < q { ProductMonotone(p + 1, q, b); } else if q < p { ProductMonotone(q + 1, p, b); }
  }

  lemma TermBound(p: int, k: int, bound: nat)
    requires Magnitude(p) <= bound
    ensures Magnitude(p * k) <= bound * Magnitude(k)
  {
    ProductMagnitude(p, k);
    ProductMonotone(Magnitude(p), bound, Magnitude(k));
  }

  lemma ProductMagnitude(p: int, k: int)
    ensures Magnitude(p * k) == Magnitude(p) * Magnitude(k)
  {
    ProductSign(Magnitude(p), Magnitude(k));
    assert p * k == Magnitude(p) * Magnitude(k) || p * k == -(Magnitude(p) * Magnitude(k));
  }

  lemma ProductMonotone(a: int, b: int, c: int)
    requires a <= b && c >= 0
    ensures a * c <= b * c
  {
    ProductSign(b - a, c);
    assert (b - a) * c == b * c - a * c;
  }

  lemma {:induction false} ProductSign(b: nat, x: nat)
    ensures b * x >= 0
  {
    if b > 0 { ProductSign(b - 1, x); }
  }

  lemma Distribute(a: nat, b: nat, c: nat)
    ensures a * (b + c) == a * b + a * c
  {
  }

  lemma QuotientBound(a: nat, b: nat, q: nat)
    requires b > 0 && a <= q * b
    ensures 0 <= a / b <= q
  {
    QuotientInside(a, b, a / b, a % b, q);
  }

  lemma QuotientInside(a: nat, b: nat, d: int, r: int, q: nat)
    requires 0 <= r < b && a == b * d + r && a <= q * b
    ensures 0 <= d <= q
  {
    if d > q {
      ProductMonotone(q + 1, d, b);
    } else if d < 0 {
      ProductMonotone(d, -1, b);
    }
  }

  lemma TruncDivBound(a: int, b: nat, q: nat)
    requires b > 0 && Magnitude(a) <= q * b
    ensures Magnitude(TruncDiv(a, b)) <= q
  {
    QuotientBound(Magnitude(a), b, q);
  }

  lemma ProductBound(a: nat, b: nat, c: nat, d: nat)
    requires a <= c && b <= d
    ensures 0 <= a * b <= c * d
  {
    ProductSign(a, b);
    ProductMonotone(a, c, b);
    ProductMonotone(b, d, c);
  }
}
