/** The parallel in-place Floyd-Warshall kernel: each thread relaxes its own rows of the shared matrix,
    with barriers 1 and 2 before every phase and barrier 0 before every iteration. */
module FloydWarshall {
  import opened Arithmetic
  import opened Grid
  import opened Phases
  import BarrierProgress

  /** Starting weights; the kernel itself uses |i - j|. */
  type Weights = (nat, nat) -> int

  ghost predicate Metric(n: nat, w: Weights) {
    && (forall i: nat, j: nat | i < n && j < n :: w(i, j) >= 0)
    && (forall i: nat | i < n :: w(i, i) == 0)
  }

  function Absolute(i: nat, j: nat): int { Magnitude(i - j) }

  function Min(a: int, b: int): int { if a < b then a else b }

  /** The cell c relaxed through vertex k. */
  function Relaxed(n: nat, k: nat, m: Memory, c: nat): int
    requires n > 0 && k < n && c < RowAt(n, n) == |m|
  {
    CellsInside(n, k, c);
    Min(m[c], m[At(n, Row(n, c), k)] + m[At(n, k, Col(n, c))])
  }

  lemma CellsInside(n: nat, k: nat, c: nat)
    requires n > 0 && k < n && c < RowAt(n, n)
    ensures Row(n, c) < n && Col(n, c) < n && c == At(n, Row(n, c), Col(n, c))
    ensures At(n, Row(n, c), k) < RowAt(n, n) && At(n, k, Col(n, c)) < RowAt(n, n)
  {
    RowCol(n, c);
    RowBound(n, n, c);
    RowMonotone(n, Row(n, c), n);
    RowMonotone(n, k, n);
  }

  datatype Role = Idle | Fill | Relax(k: nat)

  /** Barrier calls of one iteration: 0, then 1 and 2 before each of the n phases. */
  function Calls(n: nat): nat { 2 * n + 1 }

  /** What happens between barrier calls g - 1 and g. */
  function RoleOf(n: nat, g: nat): Role {
    if g == 0 then Idle else IterationRole(Col(Calls(n), g - 1))
  }

  /** What happens after call j of an iteration. */
  function IterationRole(j: nat): Role {
    if j == 0 then Fill else if j % 2 == 1 then Idle else Relax(j / 2 - 1)
  }

  function Program(n: nat, iterations: nat): seq<nat> {
    seq(RowAt(Calls(n), iterations), i requires i >= 0 =>
      var j := Col(Calls(n), i); if j == 0 then 0 else if j % 2 == 1 then 1 else 2)
  }

  lemma ProgramAlternates(n: nat, iterations: nat)
    requires n > 0
    ensures BarrierProgress.NeighboursDiffer(Program(n, iterations))
  {
    forall i | 0 <= i < |Program(n, iterations)| - 1
      ensures Program(n, iterations)[i] != Program(n, iterations)[i + 1]
    {
      var r, j := Row(Calls(n), i), Col(Calls(n), i);
      RowCol(Calls(n), i);
      if j < 2 * n { AtCell(Calls(n), r, j + 1); } else { AtCell(Calls(n), r + 1, 0); }
    }
  }

  /** The update of cell c. */
  function Update(n: nat, w: Weights, role: Role, c: nat, m: Memory): (m': Memory)
    ensures |m'| == |m|
  {
    if c >= |m| || |m| != RowAt(n, n) || n == 0 then m
    else match role
      case Idle => m
      case Fill => m[c := w(Row(n, c), Col(n, c))]
      case Relax(k) => if k < n then m[c := Relaxed(n, k, m, c)] else m
  }

  /** The phase-k values of the cells lo..hi computed from the matrix m the phase started with. */
  ghost function Swept(n: nat, k: nat, lo: nat, hi: nat, m: Memory): Memory
    requires n > 0 && k < n && |m| == RowAt(n, n)
  {
    seq(|m|, c requires 0 <= c < |m| => if lo <= c < hi then Relaxed(n, k, m, c) else m[c])
  }

  /** Rows and column k stand still in phase k, so an update in place sees the values of the phase's start. */
  lemma SweepCell(n: nat, k: nat, lo: nat, i: nat, j: nat, m: Memory)
    requires i < n && j < n && k < n && |m| == RowAt(n, n) && At(n, k, k) < |m| ==> m[At(n, k, k)] >= 0
    requires i < n && j < n && k < n && |m| == RowAt(n, n) && lo <= At(n, i, j)
    ensures At(n, i, j) < |m| && At(n, i, k) < |m| && At(n, k, j) < |m|
    ensures var m1 := Swept(n, k, lo, At(n, i, j), m);
            Swept(n, k, lo, At(n, i, j) + 1, m) == m1[At(n, i, j) :=
              Min(m1[At(n, i, j)], m1[At(n, i, k)] + m1[At(n, k, j)])]
  {
    AtInside(n, i, j);
    AtInside(n, i, k);
    AtInside(n, k, j);
    AtInside(n, k, k);
  }

  /** The update of one cell in place. */
  method RelaxCell(path: array<int>, n: nat, k: nat, i: nat, j: nat, ghost lo: nat, ghost m: Memory)
    requires k < n && i < n && j < n && path.Length == |m| == RowAt(n, n) && lo <= At(n, i, j)
    requires At(n, k, k) < |m| && m[At(n, k, k)] >= 0
    requires path[..] == Swept(n, k, lo, At(n, i, j), m)
    modifies path
    ensures path[..] == Swept(n, k, lo, At(n, i, j) + 1, m)
  {
    SweepCell(n, k, lo, i, j, m);
    var through := path[At(n, i, k)] + path[At(n, k, j)];
    path[At(n, i, j)] := if path[At(n, i, j)] < through then path[At(n, i, j)] else through;
  }

  /** One thread's share of a phase: the two inner loops of floyd_warshall, in place. */
  method RelaxRows(path: array<int>, n: nat, k: nat, startIndx: nat, endIndx: nat)
    requires path.Length == RowAt(n, n) && k < n && startIndx <= endIndx <= n
    requires At(n, k, k) < path.Length && path[At(n, k, k)] >= 0
    modifies path
    ensures path[..] == Swept(n, k, RowAt(n, startIndx), RowAt(n, endIndx), old(path[..]))
  {
    ghost var lo, m := RowAt(n, startIndx), path[..];
    for i := startIndx to endIndx
      invariant lo <= RowAt(n, i) && path[..] == Swept(n, k, lo, RowAt(n, i), m)
    {
      for j := 0 to n
        invariant lo <= RowAt(n, i) && path[..] == Swept(n, k, lo, At(n, i, j), m)
      {
        RelaxCell(path, n, k, i, j, lo, m);
      }
    }
  }

  /** The starting values in the cells lo..hi. */
  ghost function Filled(n: nat, lo: nat, hi: nat, m: Memory): Memory
    requires n > 0
  {
    seq(|m|, c requires 0 <= c < |m| => if lo <= c < hi then Absolute(Row(n, c), Col(n, c)) else m[c])
  }

  lemma FilledNext(n: nat, lo: nat, i: nat, j: nat, m: Memory)
    requires i < n && j < n && |m| == RowAt(n, n) && lo <= At(n, i, j)
    ensures At(n, i, j) < |m|
    ensures Filled(n, lo, At(n, i, j) + 1, m) == Filled(n, lo, At(n, i, j), m)[At(n, i, j) := Magnitude(i - j)]
  {
    AtInside(n, i, j);
  }

  /** One thread's share of the starting matrix: the first loop nest of floyd_warshall. */
  method FillRows(path: array<int>, n: nat, startIndx: nat, endIndx: nat)
    requires n > 0 && path.Length == RowAt(n, n) && startIndx <= endIndx <= n
    modifies path
    ensures path[..] == Filled(n, RowAt(n, startIndx), RowAt(n, endIndx), old(path[..]))
  {
    ghost var lo, m := RowAt(n, startIndx), path[..];
    for i := startIndx to endIndx
      invariant lo <= RowAt(n, i) && path[..] == Filled(n, lo, RowAt(n, i), m)
    {
      for j := 0 to n
        invariant lo <= RowAt(n, i) && path[..] == Filled(n, lo, At(n, i, j), m)
      {
        FilledNext(n, lo, i, j, m);
        path[At(n, i, j)] := Magnitude(i - j);
      }
    }
  }
}
