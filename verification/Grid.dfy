/** Row-major matrices in flat memory, and the division of their rows among threads. */
module Grid {
  import opened Wrappers
  import Barrier

  /** The address i * n of row i when rows have n cells. */
  function RowAt(n: nat, i: nat): nat { if i == 0 then 0 else RowAt(n, i - 1) + n }

  /** The address i * n + j of row i, column j. */
  function At(n: nat, i: nat, j: nat): nat { RowAt(n, i) + j }

  lemma {:induction false} AtIsProduct(n: nat, i: nat, j: nat)
    ensures At(n, i, j) == i * n + j
  {
    if i > 0 { AtIsProduct(n, i - 1, j); }
  }

  /** The row and the column of the cell with address c. */
  function Row(n: nat, c: nat): nat
    requires n > 0
  {
    if c < n then 0 else 1 + Row(n, c - n)
  }

  function Col(n: nat, c: nat): nat
    requires n > 0
  {
    if c < n then c else Col(n, c - n)
  }

  lemma {:induction false} AtCell(n: nat, i: nat, j: nat)
    requires j < n
    ensures Row(n, At(n, i, j)) == i && Col(n, At(n, i, j)) == j
  {
    if i > 0 { AtCell(n, i - 1, j); }
  }

  lemma {:induction false} RowMonotone(n: nat, i: nat, m: nat)
    requires i <= m
    ensures RowAt(n, i) <= RowAt(n, m)
    ensures i < m ==> RowAt(n, i) + n <= RowAt(n, m)
  {
    if i < m { RowMonotone(n, i, m - 1); }
  }

  lemma {:induction false} RowCol(n: nat, c: nat)
    requires n > 0
    ensures Col(n, c) < n && c == At(n, Row(n, c), Col(n, c))
  {
    if c >= n {
      RowCol(n, c - n);
      RowShift(n, Row(n, c - n));
    }
  }

  /** A quotient whose remainder is smaller than n is the quotient. */
  lemma QuotientIs(n: nat, c: nat, q: nat, r: nat)
    requires c == q * n + r && r < n
    ensures c / n == q && c % n == r
  {
    var e, d := c / n, c % n;
    assert e * n + d == c;
    if e < q { Grows(n, e, q); }
    if q < e { Grows(n, q, e); }
  }

  lemma Grows(n: nat, a: nat, b: nat)
    requires a < b
    ensures (a + 1) * n <= b * n
  {
    var rest := b - a - 1;
    assert b * n == (a + 1) * n + rest * n;
  }

  lemma RowIsQuotient(n: nat, c: nat)
    requires n > 0
    ensures Row(n, c) == c / n && Col(n, c) == c % n
  {
    RowCol(n, c);
    AtIsProduct(n, Row(n, c), Col(n, c));
    QuotientIs(n, c, Row(n, c), Col(n, c));
  }

  lemma {:induction false} RowShift(n: nat, i: nat)
    ensures RowAt(n, i + 1) == n + RowAt(n, i)
  {
  }

  /** A cell of m rows lies in one of them. */
  lemma RowBound(n: nat, m: nat, c: nat)
    requires n > 0 && c < RowAt(n, m)
    ensures Row(n, c) < m
  {
    RowCol(n, c);
    if Row(n, c) >= m { RowMonotone(n, m, Row(n, c)); }
  }

  lemma AtInside(n: nat, i: nat, j: nat)
    requires i < n && j < n
    ensures At(n, i, j) < RowAt(n, n) && Row(n, At(n, i, j)) == i && Col(n, At(n, i, j)) == j
  {
    RowMonotone(n, i, n);
    AtCell(n, i, j);
  }

  /** rows[t] is the half-open range of rows given to thread t. */
  type Rows = seq<(nat, nat)>

  ghost predicate Owns(rows: Rows, t: nat, i: nat) {
    t < |rows| && rows[t].0 <= i < rows[t].1
  }

  ghost predicate Covered(rows: Rows, i: nat) { exists t: nat :: Owns(rows, t, i) }

  /** The ranges divide rows 0..n; threads may come in any order and may have no rows. */
  ghost predicate Partition(n: nat, rows: Rows) {
    && |rows| > 0
    && (forall t | 0 <= t < |rows| :: rows[t].0 <= rows[t].1 <= n)
    && (forall i: nat | i < n :: Covered(rows, i))
    && (forall i: nat, t: nat, u: nat | Owns(rows, t, i) && Owns(rows, u, i) :: t == u)
  }

  function OwnerAmong(rows: Rows, i: nat, k: nat): Option<nat>
    requires k <= |rows|
  {
    if k == 0 then None
    else if rows[k - 1].0 <= i < rows[k - 1].1 then Some(k - 1)
    else OwnerAmong(rows, i, k - 1)
  }

  function Owner(rows: Rows, i: nat): Option<nat> { OwnerAmong(rows, i, |rows|) }

  lemma {:induction false} OwnerFound(rows: Rows, i: nat, k: nat)
    requires k <= |rows|
    ensures match OwnerAmong(rows, i, k)
            case Some(t) => t < k && Owns(rows, t, i)
            case None => forall t: nat | t < k :: !Owns(rows, t, i)
  {
    if k > 0 { OwnerFound(rows, i, k - 1); }
  }

  lemma OwnerIs(n: nat, rows: Rows, t: nat, i: nat)
    requires Partition(n, rows)
    ensures Owns(rows, t, i) <==> Owner(rows, i) == Some(t)
  {
    OwnerFound(rows, i, |rows|);
  }

  lemma RowHasOwner(n: nat, rows: Rows, i: nat)
    requires Partition(n, rows) && i < n
    ensures Owner(rows, i).Some? && Owns(rows, Owner(rows, i).value, i)
  {
    OwnerFound(rows, i, |rows|);
    assert Covered(rows, i);
    var t: nat :| Owns(rows, t, i);
  }

  /** How many cells thread t's rows have. */
  function OwnCells(n: nat, rows: Rows, t: nat): nat
    requires t < |rows|
  {
    var lo, hi := RowAt(n, rows[t].0), RowAt(n, rows[t].1);
    if lo <= hi then hi - lo else 0
  }

  /** Its l-th cell lies in its rows. */
  lemma OwnCellAt(n: nat, rows: Rows, t: nat, l: nat)
    requires n > 0 && Partition(n, rows) && t < |rows| && l < OwnCells(n, rows, t)
    ensures var c := RowAt(n, rows[t].0) + l;
            c < RowAt(n, n) && Row(n, c) < n && Owner(rows, Row(n, c)) == Some(t)
  {
    var c := RowAt(n, rows[t].0) + l;
    RowMonotone(n, rows[t].1, n);
    RowBound(n, rows[t].1, c);
    RowCol(n, c);
    if Row(n, c) < rows[t].0 { RowMonotone(n, Row(n, c), rows[t].0); }
    OwnerIs(n, rows, t, Row(n, c));
  }

  /** Conversely, each cell is one of its owner's. */
  lemma CellOwned(n: nat, rows: Rows, c: nat)
    requires n > 0 && Partition(n, rows) && c < RowAt(n, n)
    ensures Owner(rows, Row(n, c)).Some?
    ensures var t := Owner(rows, Row(n, c)).value;
            t < |rows| && RowAt(n, rows[t].0) <= c < RowAt(n, rows[t].0) + OwnCells(n, rows, t)
  {
    RowBound(n, n, c);
    RowCol(n, c);
    RowHasOwner(n, rows, Row(n, c));
    var t := Owner(rows, Row(n, c)).value;
    RowMonotone(n, rows[t].0, Row(n, c));
    RowMonotone(n, Row(n, c), rows[t].1);
  }

  /** f summed over lo..hi. */
  ghost function RangeSum(f: nat -> nat, lo: nat, hi: nat): nat
    decreases hi
  {
    if hi <= lo then 0 else RangeSum(f, lo, hi - 1) + f(hi - 1)
  }

  /** Thread t's sum over its rows above row h. */
  ghost function PartAbove(rows: Rows, f: nat -> nat, h: nat, t: nat): nat
    requires t < |rows|
  {
    RangeSum(f, rows[t].0, if rows[t].1 < h then rows[t].1 else h)
  }

  ghost function PartsAbove(rows: Rows, f: nat -> nat, h: nat): seq<nat> {
    seq(|rows|, t requires 0 <= t < |rows| => PartAbove(rows, f, h, t))
  }

  /** Row h counts for its owner alone. */
  lemma PartsGrow(n: nat, rows: Rows, f: nat -> nat, h: nat, o: nat)
    requires Partition(n, rows) && Owns(rows, o, h)
    ensures Sum(PartsAbove(rows, f, h + 1)) == Sum(PartsAbove(rows, f, h)) + f(h)
  {
    var before := PartsAbove(rows, f, h);
    forall t: nat | t < |rows| ensures PartsAbove(rows, f, h + 1)[t] == before[t] + if t == o then f(h) else 0 {
      if t != o { assert !Owns(rows, t, h); }
    }
    SumUpdate(before, o, before[o] + f(h));
    assert PartsAbove(rows, f, h + 1) == before[o := before[o] + f(h)];
  }

  lemma {:induction false} PartsAddUp(n: nat, rows: Rows, f: nat -> nat, h: nat)
    requires Partition(n, rows) && h <= n
    ensures Sum(PartsAbove(rows, f, h)) == RangeSum(f, 0, h)
  {
    if h == 0 {
      SumZero(PartsAbove(rows, f, 0));
    } else {
      PartsAddUp(n, rows, f, h - 1);
      RowHasOwner(n, rows, h - 1);
      PartsGrow(n, rows, f, h - 1, Owner(rows, h - 1).value);
    }
  }

  ghost function Parts(rows: Rows, f: nat -> nat): seq<nat> {
    seq(|rows|, t requires 0 <= t < |rows| => RangeSum(f, rows[t].0, rows[t].1))
  }

  /** What the threads sum over their rows adds up to the sum over all rows. */
  lemma PartsMakeWhole(n: nat, rows: Rows, f: nat -> nat)
    requires Partition(n, rows)
    ensures Sum(Parts(rows, f)) == RangeSum(f, 0, n)
  {
    PartsAddUp(n, rows, f, n);
    assert Parts(rows, f) == PartsAbove(rows, f, n);
  }

  function Upto(n: nat): (r: set<nat>)
    ensures forall t: nat :: t in r <==> t < n
  {
    if n == 0 then {} else Upto(n - 1) + {n - 1}
  }

  /** `threads` threads that all follow prog, with every barrier sized for all of them. */
  function Config(threads: nat, barriers: nat, prog: seq<nat>): Barrier.Config {
    Barrier.Config(seq(threads, t => prog), seq(barriers, b => Upto(threads)))
  }
}
