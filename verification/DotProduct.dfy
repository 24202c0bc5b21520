/** The dot product of two vectors whose elements are divided among threads, in 32-bit arithmetic. */
module DotProduct {
  import opened Wrappers
  import opened Grid

  const WORD: nat := 0x1_0000_0000

  function Wrap(x: int): (r: nat)
    ensures r < WORD
  {
    x % WORD
  }

  lemma WrapAdds(a: int, b: int)
    ensures Wrap(Wrap(a) + b) == Wrap(a + b)
  {
    var q := a / WORD;
    assert a + b == Wrap(a) + b + q * WORD;
    WrapTurns(Wrap(a) + b, q);
  }

  lemma {:induction false} WrapTurns(x: int, q: int)
    ensures Wrap(x + q * WORD) == Wrap(x)
    decreases if q < 0 then -q else q
  {
    if q > 0 {
      WrapTurns(x + WORD, q - 1);
    } else if q < 0 {
      WrapTurns(x - WORD, q + 1);
    }
  }

  function Square(i: nat): nat { i * i }

  /** The product of elements lo..hi: both vectors hold i at i. */
  ghost function Product(lo: nat, hi: nat): nat { RangeSum(Square, lo, hi) }

  lemma TimesTwelve(n: nat)
    ensures (n + 1) * n * (2 * n + 1) == n * (n - 1) * (2 * n - 1) + 6 * (n * n)
  {
    var m := n * n;
    assert n * (n - 1) == m - n && (n + 1) * n == m + n;
    assert (m + n) * (2 * n + 1) == 2 * (m * n) + m + 2 * m + n;
    assert (m - n) * (2 * n - 1) == 2 * (m * n) - m - 2 * m + n;
  }

  /** The whole product is the sum of the squares below n. */
  lemma {:induction false} ProductClosed(n: nat)
    ensures 6 * Product(0, n) == n * (n - 1) * (2 * n - 1)
  {
    if n > 0 {
      ProductClosed(n - 1);
      TimesTwelve(n - 1);
      assert Product(0, n) == Product(0, n - 1) + (n - 1) * (n - 1);
    }
  }

  /** One turn of the accumulating loop, in 32 bits. */
  function Accumulate(sum: int, x: int, y: int): (r: nat)
    ensures r < WORD
  {
    Wrap(sum + x * y)
  }

  lemma AccumulateNext(start: nat, i: nat)
    requires start <= i
    ensures Accumulate(Wrap(Product(start, i)), i, i) == Wrap(Product(start, i + 1))
  {
    WrapAdds(Product(start, i), i * i);
    assert Product(start, i + 1) == Product(start, i) + Square(i);
  }

  /** The first loop of dot_product; the vectors may be given as one array. */
  method FillSlice(a: array<nat>, b: array<nat>, start: nat, end: nat)
    requires start <= end <= a.Length && end <= b.Length
    modifies a, b
    ensures forall i | start <= i < end :: a[i] == b[i] == i
    ensures forall i | 0 <= i < a.Length && (i < start || end <= i) :: a[i] == old(a[i])
    ensures forall i | 0 <= i < b.Length && (i < start || end <= i) :: b[i] == old(b[i])
  {
    for i := start to end
      invariant forall k | start <= k < i :: a[k] == b[k] == k
      invariant forall k | 0 <= k < a.Length && (k < start || i <= k) :: a[k] == old(a[k])
      invariant forall k | 0 <= k < b.Length && (k < start || i <= k) :: b[k] == old(b[k])
    {
      b[i] := i;
      a[i] := b[i];
    }
  }

  /** dot_product up to the point where its sum is handed on. */
  method DotSlice(a: array<nat>, b: array<nat>, start: nat, end: nat) returns (sum: nat)
    requires start <= end <= a.Length && end <= b.Length
    modifies a, b
    ensures sum == Product(start, end) % 0x1_0000_0000
  {
    FillSlice(a, b, start, end);
    sum := 0;
    for i := start to end
      invariant sum == Wrap(Product(start, i))
      invariant forall k | start <= k < end :: a[k] == b[k] == k
    {
      AccumulateNext(start, i);
      sum := Accumulate(sum, a[i], b[i]);
    }
  }

  ghost function Products(slices: Rows): seq<nat> {
    seq(|slices|, t requires 0 <= t < |slices| => Product(slices[t].0, slices[t].1))
  }

  /** The threads' products add up to the whole one. */
  lemma ProductsMakeWhole(n: nat, slices: Rows)
    requires Partition(n, slices)
    ensures Sum(Products(slices)) == Product(0, n)
  {
    PartsMakeWhole(n, slices, Square);
    assert Products(slices) == Parts(slices, Square);
  }
}
