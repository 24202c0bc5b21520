/** The regularity-detection kernel on an n by n grid: what each loop of parallel_kernel_reg_detect makes
    of the arrays, for the rows startIndx..endIndx of the calling thread. */
module RegDetect {
  import opened Arithmetic
  import opened Grid

  /** The starting values of cell c. */
  function Tang(n: nat, c: nat): nat
    requires n > 0
  {
    (Row(n, c) + 1) * (Col(n, c) + 1)
  }

  function MeanInit(n: nat, c: nat): int
    requires n > 0
  {
    TruncDiv(Row(n, c) - Col(n, c), n)
  }

  function PathInit(n: nat, c: nat): int
    requires n > 0
  {
    TruncDiv(Row(n, c) * (Col(n, c) - 1), n)
  }

  /** The kernel works on the cells on and right of the diagonal. */
  predicate Upper(n: nat, c: nat)
    requires n > 0
  {
    Row(n, c) <= Col(n, c)
  }

  function Mean(n: nat, length: nat, c: nat): int
    requires n > 0
  {
    if Upper(n, c) then length * Tang(n, c) else MeanInit(n, c)
  }

  /** mean summed down the diagonal from row 0, column j over k + 1 cells. */
  function Diagonal(mean: seq<int>, n: nat, j: nat, k: nat): int
    requires j + k < n && RowAt(n, n) <= |mean|
  {
    AtInside(n, k, j + k);
    if k == 0 then mean[At(n, 0, j)] else Diagonal(mean, n, j, k - 1) + mean[At(n, k, j + k)]
  }

  /** What the column sum of cell c and the path of cell c become. */
  function TmpAt(mean: seq<int>, n: nat, c: nat, was: int): int
    requires n > 0 && RowAt(n, n) <= |mean|
  {
    RowCol(n, c);
    if Upper(n, c) then Diagonal(mean, n, Row(n, c), Col(n, c) - Row(n, c)) else was
  }

  /** The cell of row Col - Row above which the sum for cell c ends. */
  function Source(n: nat, c: nat): nat
    requires n > 0 && Upper(n, c)
    ensures Source(n, c) < RowAt(n, n)
  {
    RowCol(n, c);
    AtInside(n, Col(n, c) - Row(n, c), Col(n, c));
    At(n, Col(n, c) - Row(n, c), Col(n, c))
  }

  lemma LowerCell(n: nat, j: nat, d: nat)
    requires j < n && RowAt(n, j) <= d < At(n, j, j)
    ensures !Upper(n, d)
  {
    AtCell(n, j, d - RowAt(n, j));
  }

  ghost predicate Filled(n: nat, lo: nat, hi: nat, tang: seq<int>, mean: seq<int>, path: seq<int>)
    requires n > 0
  {
    forall c: nat | lo <= c < hi && c < |tang| && c < |mean| && c < |path| ::
      tang[c] == Tang(n, c) && mean[c] == MeanInit(n, c) && path[c] == PathInit(n, c)
  }

  /** The starting values are C's quotients. */
  lemma StartTruncates(n: nat, c: nat)
    requires n > 0
    ensures Truncates(MeanInit(n, c), Row(n, c) - Col(n, c), n)
    ensures Truncates(PathInit(n, c), Row(n, c) * (Col(n, c) - 1), n)
  {
    TruncDivTruncates(Row(n, c) - Col(n, c), n);
    TruncDivTruncates(Row(n, c) * (Col(n, c) - 1), n);
  }

  lemma FilledTruncates(n: nat, lo: nat, hi: nat, tang: seq<int>, mean: seq<int>, path: seq<int>, c: nat)
    requires n > 0 && Filled(n, lo, hi, tang, mean, path) && lo <= c < hi && c < |tang| == |mean| == |path|
    ensures tang[c] == (Row(n, c) + 1) * (Col(n, c) + 1) && Truncates(mean[c], Row(n, c) - Col(n, c), n)
    ensures Truncates(path[c], Row(n, c) * (Col(n, c) - 1), n)
  {
    StartTruncates(n, c);
  }

  lemma StartsAt(n: nat, i: nat, j: nat)
    requires i < n && j < n
    ensures At(n, i, j) < RowAt(n, n) && Tang(n, At(n, i, j)) == (i + 1) * (j + 1)
    ensures MeanInit(n, At(n, i, j)) == TruncDiv(i - j, n) && PathInit(n, At(n, i, j)) == TruncDiv(i * (j - 1), n)
  {
    AtInside(n, i, j);
  }

  /** The first loop nest. */
  method FillTables(sumTang: array<int>, mean: array<int>, path: array<int>, n: nat, startIndx: nat, endIndx: nat)
    requires n > 0 && startIndx <= endIndx <= n
    requires sumTang.Length == mean.Length == path.Length == RowAt(n, n)
    requires sumTang != mean && sumTang != path && mean != path
    modifies sumTang, mean, path
    ensures Filled(n, RowAt(n, startIndx), RowAt(n, endIndx), sumTang[..], mean[..], path[..])
    ensures forall c: nat | RowAt(n, startIndx) <= c < RowAt(n, endIndx) && c < RowAt(n, n) ::
              && sumTang[c] == (Row(n, c) + 1) * (Col(n, c) + 1)
              && Truncates(mean[c], Row(n, c) - Col(n, c), n)
              && Truncates(path[c], Row(n, c) * (Col(n, c) - 1), n)
    ensures forall c: nat | c < RowAt(n, n) && !(RowAt(n, startIndx) <= c < RowAt(n, endIndx)) ::
              sumTang[c] == old(sumTang[c]) && mean[c] == old(mean[c]) && path[c] == old(path[c])
  {
    hide Tang, MeanInit, PathInit, Row, Col, TruncDiv, Truncates;
    ghost var lo := RowAt(n, startIndx);
    for i := startIndx to endIndx
      invariant lo <= RowAt(n, i) && Filled(n, lo, RowAt(n, i), sumTang[..], mean[..], path[..])
      invariant forall c: nat | c < RowAt(n, n) && !(lo <= c < RowAt(n, i)) ::
                  sumTang[c] == old(sumTang[c]) && mean[c] == old(mean[c]) && path[c] == old(path[c])
    {
      for j := 0 to n
        invariant Filled(n, lo, At(n, i, j), sumTang[..], mean[..], path[..])
        invariant forall c: nat | c < RowAt(n, n) && !(lo <= c < At(n, i, j)) ::
                    sumTang[c] == old(sumTang[c]) && mean[c] == old(mean[c]) && path[c] == old(path[c])
      {
        StartsAt(n, i, j);
        sumTang[At(n, i, j)] := (i + 1) * (j + 1);
        mean[At(n, i, j)] := TruncDiv(i - j, n);
        path[At(n, i, j)] := TruncDiv(i * (j - 1), n);
      }
    }
    forall c: nat | RowAt(n, startIndx) <= c < RowAt(n, endIndx) && c < RowAt(n, n) {
      FilledTruncates(n, lo, RowAt(n, endIndx), sumTang[..], mean[..], path[..], c);
    }
  }

  /** The length values of cell c in diff are all v. */
  ghost predicate Spread(diff: seq<int>, length: nat, c: nat, v: int) {
    RowAt(length, c + 1) <= |diff| && forall k: nat | k < length :: diff[At(length, c, k)] == v
  }

  ghost predicate OnlyCell(was: seq<int>, now: seq<int>, length: nat, c: nat) {
    |now| == |was| && forall a: nat | a < |was| && !(RowAt(length, c) <= a < RowAt(length, c + 1)) :: now[a] == was[a]
  }

  lemma SpreadKept(was: seq<int>, now: seq<int>, length: nat, c: nat, d: nat, v: int)
    requires OnlyCell(was, now, length, c) && d != c && Spread(was, length, d, v)
    ensures Spread(now, length, d, v)
  {
    if d < c { RowMonotone(length, d + 1, c); } else { RowMonotone(length, c + 1, d); }
  }

  /** The innermost loop of the second nest. */
  method CopyTang(sumTang: array<int>, diff: array<int>, length: nat, c: nat)
    requires c < sumTang.Length && RowAt(length, c + 1) <= diff.Length && diff != sumTang
    modifies diff
    ensures Spread(diff[..], length, c, sumTang[c])
    ensures OnlyCell(old(diff[..]), diff[..], length, c)
  {
    for cnt := 0 to length
      invariant forall k: nat | k < cnt :: diff[At(length, c, k)] == sumTang[c]
      invariant OnlyCell(old(diff[..]), diff[..], length, c)
    {
      diff[At(length, c, cnt)] := sumTang[c];
    }
  }

  ghost predicate Spreads(n: nat, length: nat, diff: seq<int>, lo: nat, hi: nat)
    requires n > 0
  {
    forall d: nat | lo <= d < hi && Upper(n, d) :: Spread(diff, length, d, Tang(n, d))
  }

  lemma SpreadsNext(n: nat, length: nat, was: seq<int>, now: seq<int>, lo: nat, c: nat)
    requires n > 0 && Spreads(n, length, was, lo, c) && OnlyCell(was, now, length, c)
    requires Spread(now, length, c, Tang(n, c))
    ensures Spreads(n, length, now, lo, c + 1)
  {
    forall d: nat | lo <= d < c && Upper(n, d) ensures Spread(now, length, d, Tang(n, d)) {
      SpreadKept(was, now, length, c, d, Tang(n, d));
    }
  }

  lemma SpreadsSkip(n: nat, length: nat, diff: seq<int>, lo: nat, j: nat)
    requires j < n && Spreads(n, length, diff, lo, RowAt(n, j))
    ensures Spreads(n, length, diff, lo, At(n, j, j))
  {
    forall d: nat | RowAt(n, j) <= d < At(n, j, j) ensures !Upper(n, d) { LowerCell(n, j, d); }
  }

  /** The second loop nest. */
  method CopyTangs(sumTang: array<int>, diff: array<int>, n: nat, length: nat, startIndx: nat, endIndx: nat)
    requires n > 0 && startIndx <= endIndx <= n && diff != sumTang
    requires sumTang.Length == RowAt(n, n) && diff.Length == RowAt(length, RowAt(n, n))
    requires forall c: nat | RowAt(n, startIndx) <= c < RowAt(n, endIndx) && c < sumTang.Length ::
               sumTang[c] == Tang(n, c)
    modifies diff
    ensures Spreads(n, length, diff[..], RowAt(n, startIndx), RowAt(n, endIndx))
  {
    ghost var lo := RowAt(n, startIndx);
    for j := startIndx to endIndx
      invariant lo <= RowAt(n, j) && Spreads(n, length, diff[..], lo, RowAt(n, j))
    {
      SpreadsSkip(n, length, diff[..], lo, j);
      RowMonotone(n, j + 1, endIndx);
      for i := j to n
        invariant Spreads(n, length, diff[..], lo, At(n, j, i))
      {
        AtInside(n, j, i);
        RowMonotone(length, At(n, j, i) + 1, RowAt(n, n));
        ghost var was := diff[..];
        CopyTang(sumTang, diff, length, At(n, j, i));
        SpreadsNext(n, length, was, diff[..], lo, At(n, j, i));
      }
    }
  }

  /** The body of the third nest: running sums of one cell's values, the last of which is its mean. */
  method Accumulate(diff: array<int>, sumDiff: array<int>, mean: array<int>, length: nat, c: nat, ghost v: int)
    requires length > 0 && RowAt(length, c + 1) <= sumDiff.Length && c < mean.Length
    requires diff != sumDiff && mean != sumDiff && mean != diff
    requires Spread(diff[..], length, c, v)
    modifies sumDiff, mean
    ensures mean[..] == old(mean[..])[c := length * v]
    ensures forall k: nat | k < length :: sumDiff[At(length, c, k)] == (k + 1) * v
    ensures OnlyCell(old(sumDiff[..]), sumDiff[..], length, c)
  {
    sumDiff[At(length, c, 0)] := diff[At(length, c, 0)];
    for cnt := 1 to length
      invariant forall k: nat | k < cnt :: sumDiff[At(length, c, k)] == (k + 1) * v
      invariant OnlyCell(old(sumDiff[..]), sumDiff[..], length, c) && mean[..] == old(mean[..])
    {
      sumDiff[At(length, c, cnt)] := sumDiff[At(length, c, cnt - 1)] + diff[At(length, c, cnt)];
      assert (cnt + 1) * v == cnt * v + v;
    }
    mean[c] := sumDiff[At(length, c, length - 1)];
  }

  /** The cells lo..hi on and right of the diagonal have their mean. */
  ghost predicate Averaged(n: nat, length: nat, lo: nat, hi: nat, was: seq<int>, mean: seq<int>)
    requires n > 0
  {
    && |mean| == |was|
    && forall c: nat | c < |mean| ::
         mean[c] == if lo <= c < hi && Upper(n, c) then length * Tang(n, c) else was[c]
  }

  lemma AveragedSkip(n: nat, length: nat, lo: nat, j: nat, was: seq<int>, mean: seq<int>)
    requires j < n && Averaged(n, length, lo, RowAt(n, j), was, mean)
    ensures Averaged(n, length, lo, At(n, j, j), was, mean)
  {
    forall d: nat | RowAt(n, j) <= d < At(n, j, j) ensures !Upper(n, d) { LowerCell(n, j, d); }
  }

  /** The third loop nest. */
  method SumDiffs(diff: array<int>, sumDiff: array<int>, mean: array<int>, n: nat, length: nat,
                  startIndx: nat, endIndx: nat)
    requires n > 0 && length > 0 && startIndx <= endIndx <= n && diff != sumDiff && mean != sumDiff && mean != diff
    requires mean.Length == RowAt(n, n) && diff.Length == sumDiff.Length == RowAt(length, RowAt(n, n))
    requires Spreads(n, length, diff[..], RowAt(n, startIndx), RowAt(n, endIndx))
    modifies sumDiff, mean
    ensures Averaged(n, length, RowAt(n, startIndx), RowAt(n, endIndx), old(mean[..]), mean[..])
  {
    ghost var lo, was := RowAt(n, startIndx), mean[..];
    for j := startIndx to endIndx
      invariant lo <= RowAt(n, j) && Averaged(n, length, lo, RowAt(n, j), was, mean[..])
    {
      AveragedSkip(n, length, lo, j, was, mean[..]);
      RowMonotone(n, j + 1, endIndx);
      for i := j to n
        invariant Averaged(n, length, lo, At(n, j, i), was, mean[..])
      {
        AtInside(n, j, i);
        RowMonotone(length, At(n, j, i) + 1, RowAt(n, n));
        Accumulate(diff, sumDiff, mean, length, At(n, j, i), Tang(n, At(n, j, i)));
      }
    }
  }

  /** The cells lo..hi of tmp hold their column sums. */
  ghost predicate Summed(n: nat, lo: nat, hi: nat, mean: seq<int>, was: seq<int>, tmp: seq<int>)
    requires n > 0 && RowAt(n, n) <= |mean|
  {
    && |tmp| == |was|
    && forall c: nat | c < |tmp| :: tmp[c] == if lo <= c < hi then TmpAt(mean, n, c, was[c]) else was[c]
  }

  lemma SummedSkip(n: nat, lo: nat, j: nat, mean: seq<int>, was: seq<int>, tmp: seq<int>)
    requires j < n && RowAt(n, n) <= |mean| && Summed(n, lo, RowAt(n, j), mean, was, tmp)
    ensures Summed(n, lo, At(n, j, j), mean, was, tmp)
  {
    forall d: nat | RowAt(n, j) <= d < At(n, j, j) ensures !Upper(n, d) { LowerCell(n, j, d); }
  }

  /** The sum of cell (j, i): the one to its left and one more mean. */
  lemma TmpNext(mean: seq<int>, n: nat, j: nat, i: nat, was: int)
    requires j <= i < n && RowAt(n, n) <= |mean|
    ensures At(n, i - j, i) < RowAt(n, n) && At(n, 0, i) < RowAt(n, n)
    ensures TmpAt(mean, n, At(n, j, i), was)
         == if i == j then mean[At(n, 0, i)] else TmpAt(mean, n, At(n, j, i - 1), was) + mean[At(n, i - j, i)]
  {
    AtInside(n, j, i);
    AtInside(n, i - j, i);
    AtInside(n, 0, i);
    if i > j { AtInside(n, j, i - 1); }
  }

  lemma SummedNext(n: nat, lo: nat, j: nat, i: nat, mean: seq<int>, was: seq<int>, tmp: seq<int>, v: int)
    requires j <= i < n && lo <= RowAt(n, j) && RowAt(n, n) == |was| && RowAt(n, n) <= |mean|
    requires Summed(n, lo, At(n, j, i), mean, was, tmp)
    requires At(n, i - j, i) < |mean| && At(n, j, i) < |tmp|
    requires v == if i == j then mean[At(n, 0, i)] else tmp[At(n, j, i - 1)] + mean[At(n, i - j, i)]
    ensures Summed(n, lo, At(n, j, i) + 1, mean, was, tmp[At(n, j, i) := v])
  {
    hide TmpAt;
    TmpNext(mean, n, j, i, was[At(n, j, i)]);
    if i > j { TmpUpper(mean, n, j, i - 1, was[At(n, j, i)], was[At(n, j, i - 1)]); }
  }

  lemma TmpUpper(mean: seq<int>, n: nat, j: nat, i: nat, a: int, b: int)
    requires j <= i < n && RowAt(n, n) <= |mean|
    ensures TmpAt(mean, n, At(n, j, i), a) == TmpAt(mean, n, At(n, j, i), b)
  {
    AtInside(n, j, i);
  }

  /** The loop nest after barrier 1, which reads every thread's means. */
  method SumColumns(mean: array<int>, tmp: array<int>, n: nat, startIndx: nat, endIndx: nat)
    requires n > 0 && startIndx <= endIndx <= n && tmp != mean && mean.Length == tmp.Length == RowAt(n, n)
    modifies tmp
    ensures Summed(n, RowAt(n, startIndx), RowAt(n, endIndx), mean[..], old(tmp[..]), tmp[..])
  {
    hide TmpAt;
    ghost var lo, was := RowAt(n, startIndx), tmp[..];
    for j := startIndx to endIndx
      invariant lo <= RowAt(n, j) && Summed(n, lo, RowAt(n, j), mean[..], was, tmp[..])
    {
      SummedSkip(n, lo, j, mean[..], was, tmp[..]);
      var x := 0;
      AtInside(n, j, j);
      AtInside(n, x, j);
      SummedNext(n, lo, j, j, mean[..], was, tmp[..], mean[At(n, x, j)]);
      tmp[At(n, j, j)] := mean[At(n, x, j)];
      for i := j + 1 to n
        invariant x == i - 1 - j && Summed(n, lo, At(n, j, i), mean[..], was, tmp[..])
      {
        x := x + 1;
        AtInside(n, j, i);
        AtInside(n, x, i);
        SummedNext(n, lo, j, i, mean[..], was, tmp[..], tmp[At(n, j, i - 1)] + mean[At(n, x, i)]);
        tmp[At(n, j, i)] := tmp[At(n, j, i - 1)] + mean[At(n, x, i)];
      }
    }
  }

  ghost predicate Copied(n: nat, lo: nat, hi: nat, tmp: seq<int>, was: seq<int>, path: seq<int>)
    requires n > 0 && RowAt(n, n) <= |tmp|
  {
    && |path| == |was|
    && forall c: nat | c < |path| :: path[c] == if lo <= c < hi && Upper(n, c) then tmp[Source(n, c)] else was[c]
  }

  lemma CopiedSkip(n: nat, lo: nat, j: nat, tmp: seq<int>, was: seq<int>, path: seq<int>)
    requires j < n && RowAt(n, n) <= |tmp| && Copied(n, lo, RowAt(n, j), tmp, was, path)
    ensures Copied(n, lo, At(n, j, j), tmp, was, path)
  {
    forall d: nat | RowAt(n, j) <= d < At(n, j, j) ensures !Upper(n, d) { LowerCell(n, j, d); }
  }

  /** The loop nest after barrier 2, which reads every thread's column sums. */
  method CopyPaths(tmp: array<int>, path: array<int>, n: nat, startIndx: nat, endIndx: nat)
    requires n > 0 && startIndx <= endIndx <= n && tmp != path && path.Length == tmp.Length == RowAt(n, n)
    modifies path
    ensures Copied(n, RowAt(n, startIndx), RowAt(n, endIndx), tmp[..], old(path[..]), path[..])
  {
    ghost var lo, was := RowAt(n, startIndx), path[..];
    for j := startIndx to endIndx
      invariant lo <= RowAt(n, j) && Copied(n, lo, RowAt(n, j), tmp[..], was, path[..])
    {
      CopiedSkip(n, lo, j, tmp[..], was, path[..]);
      var x := 0;
      for i := j to n
        invariant x == i - j && Copied(n, lo, At(n, j, i), tmp[..], was, path[..])
      {
        AtInside(n, j, i);
        AtInside(n, x, i);
        path[At(n, j, i)] := tmp[At(n, x, i)];
        x := x + 1;
      }
    }
  }

  /** The sum of (x + 1)(d + x + 1) for x in 0..j. */
  function Weights(j: nat, d: nat): nat {
    if j == 0 then d + 1 else Weights(j - 1, d) + (j + 1) * (d + j + 1)
  }

  lemma {:induction false} WeightsClosed(j: nat, d: nat)
    ensures 6 * Weights(j, d) == (j + 1) * (j + 2) * (2 * j + 3 + 3 * d)
  {
    if j > 0 {
      WeightsClosed(j - 1, d);
      WeightsArithmetic(j, d);
    }
  }

  lemma WeightsArithmetic(j: nat, d: nat)
    ensures j * (j + 1) * (2 * j + 1 + 3 * d) + 6 * ((j + 1) * (d + j + 1)) == (j + 1) * (j + 2) * (2 * j + 3 + 3 * d)
  {
    assert j * (2 * j + 1 + 3 * d) + 6 * (d + j + 1) == (j + 2) * (2 * j + 3 + 3 * d);
    assert j * (j + 1) * (2 * j + 1 + 3 * d) == (j + 1) * (j * (2 * j + 1 + 3 * d));
    assert (j + 1) * (j + 2) * (2 * j + 3 + 3 * d) == (j + 1) * ((j + 2) * (2 * j + 3 + 3 * d));
  }

  /** All means are complete. */
  ghost predicate MeansDone(n: nat, length: nat, mean: seq<int>)
    requires n > 0
  {
    RowAt(n, n) <= |mean| && forall c: nat | c < RowAt(n, n) :: mean[c] == Mean(n, length, c)
  }

  lemma MeanOf(n: nat, length: nat, mean: seq<int>, i: nat, j: nat)
    requires i <= j < n && MeansDone(n, length, mean)
    ensures At(n, i, j) < |mean| && mean[At(n, i, j)] == length * ((i + 1) * (j + 1))
  {
    AtInside(n, i, j);
  }

  /** A diagonal of complete means adds up to its weights. */
  lemma {:induction false} DiagonalIsWeights(n: nat, length: nat, mean: seq<int>, j: nat, k: nat)
    requires n > 0 && j + k < n && MeansDone(n, length, mean)
    ensures Diagonal(mean, n, j, k) == length * Weights(k, j)
  {
    hide Mean, MeansDone;
    MeanOf(n, length, mean, k, j + k);
    if k > 0 {
      DiagonalIsWeights(n, length, mean, j, k - 1);
      Distribute(length, Weights(k - 1, j), (k + 1) * (j + k + 1));
    }
  }

  lemma {:induction false} WeightsBound(j: nat, d: nat, n: nat)
    requires j + d < n
    ensures Weights(j, d) <= (j + 1) * (n * n)
  {
    ProductBound(j + 1, d + j + 1, n, n);
    if j > 0 {
      WeightsBound(j - 1, d, n);
      assert (j + 1) * (n * n) == j * (n * n) + n * n;
    } else {
      assert d + 1 <= n <= n * n;
    }
  }
}
