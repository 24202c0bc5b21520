/** Whole runs of the parallel Floyd-Warshall kernel end with the shortest-walk distances. */
module FloydWarshallParallel {
  import opened Wrappers
  import opened Grid
  import opened Phases
  import opened FloydWarshall

  ghost function OwnerIn(n: nat, rows: Rows, role: Role, c: nat): Option<nat> {
    if n == 0 || role.Idle? || (role.Relax? && (Row(n, c) == role.k || Col(n, c) == role.k)) then None
    else Owner(rows, Row(n, c))
  }

  ghost predicate Good(n: nat, m: Memory) {
    && |m| == RowAt(n, n)
    && (forall c | 0 <= c < |m| :: m[c] >= 0)
    && (forall i: nat | i < n && At(n, i, i) < |m| :: m[At(n, i, i)] == 0)
  }

  /** The kernel: fxnTest1 with floyd_warshall inlined. */
  ghost function FloydKernel(n: nat, rows: Rows, w: Weights, iterations: nat): Phases.Kernel {
    Phases.Kernel(
      Config(|rows|, 3, Program(n, iterations)), Program(n, iterations),
      (t: nat, g: nat) => if t < |rows| && !RoleOf(n, g).Idle? then OwnCells(n, rows, t) else 0,
      (t: nat, g: nat, l: nat, m: Memory) =>
        if t < |rows| then Update(n, w, RoleOf(n, g), RowAt(n, rows[t].0) + l, m) else m,
      (g: nat, c: nat) => OwnerIn(n, rows, RoleOf(n, g), c),
      (g: nat, m: Memory) => |m| == RowAt(n, n) && (g >= 2 ==> Good(n, m)))
  }

  lemma UpdateGood(n: nat, w: Weights, role: Role, c: nat, m: Memory)
    requires Metric(n, w) && Good(n, m) && n > 0 && c < |m|
    ensures Good(n, Update(n, w, role, c, m))
  {
    RowCol(n, c);
    RowBound(n, n, c);
    forall i: nat | i < n ensures Row(n, At(n, i, i)) == i && Col(n, At(n, i, i)) == i { AtInside(n, i, i); }
    if role.Relax? && role.k < n { CellsInside(n, role.k, c); }
  }

  /** The value written depends on the cell itself and on row and column k only. */
  lemma UpdateAgrees(n: nat, w: Weights, role: Role, c: nat, m1: Memory, m2: Memory)
    requires n > 0 && c < |m1| == |m2| == RowAt(n, n) && m1[c] == m2[c]
    requires forall d: nat | d < |m1| && role.Relax? && (Row(n, d) == role.k || Col(n, d) == role.k) :: m1[d] == m2[d]
    ensures Update(n, w, role, c, m1)[c] == Update(n, w, role, c, m2)[c]
  {
    if role.Relax? && role.k < n {
      CellsInside(n, role.k, c);
      AtInside(n, Row(n, c), role.k);
      AtInside(n, role.k, Col(n, c));
    }
  }

  /** A cell of row or column k keeps its value in phase k. */
  lemma UpdateStill(n: nat, w: Weights, k: nat, c: nat, m: Memory)
    requires n > 0 && Good(n, m) && k < n && c < |m| && (Row(n, c) == k || Col(n, c) == k)
    ensures Relaxed(n, k, m, c) == m[c] && Update(n, w, Relax(k), c, m) == m
  {
    CellsInside(n, k, c);
    AtInside(n, k, k);
  }

  lemma {:induction false} AloneFill(n: nat, rows: Rows, w: Weights, iterations: nat, g: nat, t: nat, l: nat, m: Memory)
    requires n > 0 && Partition(n, rows) && t < |rows| && l <= OwnCells(n, rows, t)
    requires RoleOf(n, g).Fill? && |m| == RowAt(n, n)
    ensures var m', lo := Alone(FloydKernel(n, rows, w, iterations), g, t, l, m), RowAt(n, rows[t].0);
            |m'| == |m| && forall c | 0 <= c < |m| ::
              m'[c] == if lo <= c < lo + l then w(Row(n, c), Col(n, c)) else m[c]
  {
    if l > 0 {
      AloneFill(n, rows, w, iterations, g, t, l - 1, m);
      OwnCellAt(n, rows, t, l - 1);
    }
  }

  lemma UpdateSwept(n: nat, w: Weights, k: nat, lo: nat, c: nat, m: Memory)
    requires n > 0 && Good(n, m) && k < n && lo <= c < |m|
    ensures Update(n, w, Relax(k), c, Swept(n, k, lo, c, m)) == Swept(n, k, lo, c + 1, m)
  {
    CellsInside(n, k, c);
    AtInside(n, k, k);
    SweepCell(n, k, lo, Row(n, c), Col(n, c), m);
  }

  lemma {:induction false} AloneRelax(n: nat, rows: Rows, w: Weights, iterations: nat,
                                      g: nat, t: nat, l: nat, m: Memory)
    requires n > 0 && Partition(n, rows) && t < |rows| && l <= OwnCells(n, rows, t)
    requires RoleOf(n, g).Relax? && RoleOf(n, g).k < n && Good(n, m)
    ensures Alone(FloydKernel(n, rows, w, iterations), g, t, l, m)
         == Swept(n, RoleOf(n, g).k, RowAt(n, rows[t].0), RowAt(n, rows[t].0) + l, m)
  {
    if l > 0 {
      AloneRelax(n, rows, w, iterations, g, t, l - 1, m);
      OwnCellAt(n, rows, t, l - 1);
      UpdateSwept(n, w, RoleOf(n, g).k, RowAt(n, rows[t].0), RowAt(n, rows[t].0) + l - 1, m);
    }
  }

  lemma RoleBounds(n: nat, g: nat)
    ensures RoleOf(n, g).Relax? ==> RoleOf(n, g).k < n
    ensures g == 1 ==> RoleOf(n, g).Fill?
  {
    if g > 0 { RowCol(Calls(n), g - 1); }
  }

  /** What a whole segment makes of the memory it starts with. */
  ghost function SegmentResult(n: nat, w: Weights, role: Role, m: Memory): Memory
    requires n > 0 && |m| == RowAt(n, n)
  {
    match role
    case Idle => m
    case Fill => seq(|m|, c requires 0 <= c < |m| => w(Row(n, c), Col(n, c)))
    case Relax(k) => if k < n then Swept(n, k, 0, |m|, m) else m
  }

  lemma SegmentOutcome(n: nat, rows: Rows, w: Weights, iterations: nat, g: nat, m: Memory)
    requires n > 0 && Partition(n, rows) && |m| == RowAt(n, n) && (g >= 2 ==> Good(n, m))
    ensures RoleOf(n, g).Relax? ==> RoleOf(n, g).k < n
    ensures var k := FloydKernel(n, rows, w, iterations);
            Outcome(k, g, Full(k, g), m) == SegmentResult(n, w, RoleOf(n, g), m)
  {
    var k, role := FloydKernel(n, rows, w, iterations), RoleOf(n, g);
    RoleBounds(n, g);
    forall c: nat | c < |m|
      ensures CellOutcome(k, g, Full(k, g), m, c) == SegmentResult(n, w, role, m)[c]
    {
      CellOwned(n, rows, c);
      var t := Owner(rows, Row(n, c)).value;
      assert !role.Idle? ==> Full(k, g)[t] == OwnCells(n, rows, t);
      if role.Fill? {
        AloneFill(n, rows, w, iterations, g, t, OwnCells(n, rows, t), m);
      } else if OwnerIn(n, rows, role, c).Some? {
        AloneRelax(n, rows, w, iterations, g, t, OwnCells(n, rows, t), m);
      } else if role.Relax? {
        UpdateStill(n, w, role.k, c, m);
      }
    }
  }

  lemma SegmentGood(n: nat, w: Weights, role: Role, m: Memory)
    requires n > 0 && Metric(n, w) && |m| == RowAt(n, n) && (role.Relax? ==> role.k < n) && (role.Fill? || Good(n, m))
    ensures Good(n, SegmentResult(n, w, role, m))
  {
    var m' := SegmentResult(n, w, role, m);
    forall c: nat | c < |m| ensures m'[c] >= 0 {
      RowCol(n, c);
      RowBound(n, n, c);
      if role.Relax? { CellsInside(n, role.k, c); }
    }
    forall i: nat | i < n ensures At(n, i, i) < |m| && m'[At(n, i, i)] == 0 {
      AtInside(n, i, i);
      if role.Relax? { CellsInside(n, role.k, At(n, i, i)); }
    }
  }

  lemma OpKeeps(n: nat, rows: Rows, w: Weights, iterations: nat, g: nat, t: nat, l: nat, m: Memory)
    requires n > 0 && Partition(n, rows) && Metric(n, w) && t < |rows|
    requires l < FloydKernel(n, rows, w, iterations).work(t, g) && FloydKernel(n, rows, w, iterations).inv(g, m)
    ensures var k := FloydKernel(n, rows, w, iterations);
            k.inv(g, k.op(t, g, l, m)) && Frame(k, g, t, m, k.op(t, g, l, m))
  {
    var c, role := RowAt(n, rows[t].0) + l, RoleOf(n, g);
    var m' := Update(n, w, role, c, m);
    OwnCellAt(n, rows, t, l);
    RoleBounds(n, g);
    if g >= 2 { UpdateGood(n, w, role, c, m); }
    assert forall d: nat | d < |m| && d != c :: m'[d] == m[d];
    if OwnerIn(n, rows, role, c).None? { UpdateStill(n, w, role.k, c, m); }
  }

  lemma OpAgrees(n: nat, rows: Rows, w: Weights, iterations: nat, g: nat, t: nat, l: nat, m1: Memory, m2: Memory)
    requires n > 0 && Partition(n, rows) && t < |rows| && |m1| == |m2| == RowAt(n, n)
    requires l < FloydKernel(n, rows, w, iterations).work(t, g)
    requires Agree(FloydKernel(n, rows, w, iterations), g, t, m1, m2)
    ensures var k := FloydKernel(n, rows, w, iterations);
            Agree(k, g, t, k.op(t, g, l, m1), k.op(t, g, l, m2))
  {
    var c := RowAt(n, rows[t].0) + l;
    OwnCellAt(n, rows, t, l);
    assert m1[c] == m2[c];
    UpdateAgrees(n, w, RoleOf(n, g), c, m1, m2);
  }

  lemma KernelSound(n: nat, rows: Rows, w: Weights, iterations: nat, m0: Memory)
    requires n > 0 && Partition(n, rows) && Metric(n, w) && |m0| == RowAt(n, n)
    ensures Sound(FloydKernel(n, rows, w, iterations), m0)
  {
    var k := FloydKernel(n, rows, w, iterations);
    forall g: nat, t: nat, l: nat, m: Memory ensures Keeps(k, g, t, l, m) {
      if t < k.Threads() && l < k.work(t, g) && k.inv(g, m) { OpKeeps(n, rows, w, iterations, g, t, l, m); }
    }
    forall g: nat, t: nat, l: nat, m1: Memory, m2: Memory ensures Local(k, g, t, l, m1, m2) {
      if t < k.Threads() && l < k.work(t, g) && k.inv(g, m1) && k.inv(g, m2) && Agree(k, g, t, m1, m2) {
        OpAgrees(n, rows, w, iterations, g, t, l, m1, m2);
      }
    }
    forall g: nat, m: Memory ensures Continues(k, g, m) {
      if k.inv(g, m) {
        RoleBounds(n, g);
        SegmentOutcome(n, rows, w, iterations, g, m);
        if g > 0 { SegmentGood(n, w, RoleOf(n, g), m); }
      }
    }
  }

  /** The value of cell (i, j) after k phases, each taken on the whole matrix at once. */
  ghost function Value(w: Weights, k: nat, i: nat, j: nat): int {
    if k == 0 then w(i, j) else Min(Value(w, k - 1, i, j), Value(w, k - 1, i, k - 1) + Value(w, k - 1, k - 1, j))
  }

  ghost predicate IsPhase(n: nat, w: Weights, k: nat, m: Memory) {
    |m| == RowAt(n, n) && n > 0 && forall c: nat | c < |m| :: m[c] == Value(w, k, Row(n, c), Col(n, c))
  }

  lemma PhaseNext(n: nat, w: Weights, k: nat, m: Memory)
    requires k < n && IsPhase(n, w, k, m)
    ensures IsPhase(n, w, k + 1, SegmentResult(n, w, Relax(k), m))
  {
    forall c: nat | c < |m| ensures Relaxed(n, k, m, c) == Value(w, k + 1, Row(n, c), Col(n, c)) {
      CellsInside(n, k, c);
      AtInside(n, Row(n, c), k);
      AtInside(n, k, Col(n, c));
    }
  }

  ghost predicate SegmentStep(n: nat, w: Weights, role: Role, m: Memory, m': Memory) {
    n > 0 && |m| == RowAt(n, n) && m' == SegmentResult(n, w, role, m)
  }

  lemma FirstPhase(n: nat, w: Weights, m: Memory, m': Memory)
    requires SegmentStep(n, w, Fill, m, m')
    ensures IsPhase(n, w, 0, m')
  {
  }

  lemma OnePhase(n: nat, w: Weights, k: nat, m: Memory, m1: Memory, m2: Memory)
    requires k < n && IsPhase(n, w, k, m) && SegmentStep(n, w, Idle, m, m1) && SegmentStep(n, w, Relax(k), m1, m2)
    ensures IsPhase(n, w, k + 1, m2)
  {
    PhaseNext(n, w, k, m);
  }

  lemma Roles(k: nat)
    requires k > 0
    ensures IterationRole(0) == Fill && IterationRole(2 * k - 1) == Idle && IterationRole(2 * k) == Relax(k - 1)
  {
  }

  /** ms[j] is the memory before call j of an iteration: the one before phase k is the k-phase matrix. */
  lemma {:induction false} IterationPhases(n: nat, w: Weights, ms: seq<Memory>, k: nat, j: nat)
    requires n > 0 && k <= n && |ms| == Calls(n) + 1 && j == 2 * k
    requires forall i: nat {:trigger IterationRole(i)} | i < Calls(n) ::
               SegmentStep(n, w, IterationRole(i), ms[i], ms[i + 1])
    ensures IsPhase(n, w, k, ms[j + 1])
  {
    if k == 0 {
      Roles(1);
      FirstPhase(n, w, ms[0], ms[1]);
    } else {
      Roles(k);
      IterationPhases(n, w, ms, k - 1, j - 2);
      OnePhase(n, w, k - 1, ms[j - 1], ms[j], ms[j + 1]);
    }
  }

  lemma {:induction false} StartGood(n: nat, rows: Rows, w: Weights, iterations: nat, m0: Memory, g: nat)
    requires n > 0 && Partition(n, rows) && Metric(n, w) && |m0| == RowAt(n, n)
    ensures FloydKernel(n, rows, w, iterations).inv(g, Start(FloydKernel(n, rows, w, iterations), g, m0))
  {
    if g > 0 {
      var k := FloydKernel(n, rows, w, iterations);
      StartGood(n, rows, w, iterations, m0, g - 1);
      KernelSound(n, rows, w, iterations, m0);
      assert Continues(k, g - 1, Start(k, g - 1, m0));
    }
  }

  lemma StartStep(n: nat, rows: Rows, w: Weights, iterations: nat, m0: Memory, g: nat, role: Role)
    requires n > 0 && Partition(n, rows) && Metric(n, w) && |m0| == RowAt(n, n) && role == RoleOf(n, g)
    ensures var k := FloydKernel(n, rows, w, iterations);
            SegmentStep(n, w, role, Start(k, g, m0), Start(k, g + 1, m0))
  {
    var k := FloydKernel(n, rows, w, iterations);
    StartGood(n, rows, w, iterations, m0, g);
    SegmentOutcome(n, rows, w, iterations, g, Start(k, g, m0));
  }

  /** Iteration `it` leaves the matrix of n whole phases. */
  lemma IterationEnds(n: nat, rows: Rows, w: Weights, iterations: nat, m0: Memory, it: nat)
    requires n > 0 && Partition(n, rows) && Metric(n, w) && |m0| == RowAt(n, n)
    ensures IsPhase(n, w, n, Start(FloydKernel(n, rows, w, iterations), RowAt(Calls(n), it + 1) + 1, m0))
  {
    var k, g := FloydKernel(n, rows, w, iterations), RowAt(Calls(n), it) + 1;
    var ms := seq(Calls(n) + 1, j requires j >= 0 => Start(k, g + j, m0));
    forall j: nat {:trigger IterationRole(j)} | j < Calls(n)
      ensures SegmentStep(n, w, IterationRole(j), ms[j], ms[j + 1])
    {
      AtCell(Calls(n), it, j);
      StartStep(n, rows, w, iterations, m0, g + j, IterationRole(j));
      assert ms[j + 1] == Start(k, g + j + 1, m0);
    }
    IterationPhases(n, w, ms, n, 2 * n);
  }

  /** A run that gets all threads to their end leaves the matrix of n whole phases. */
  lemma FinalIsPhase(n: nat, rows: Rows, w: Weights, iterations: nat, m0: Memory, run: seq<State>)
    requires n > 0 && Partition(n, rows) && Metric(n, w) && |m0| == RowAt(n, n) && iterations > 0
    requires Run(FloydKernel(n, rows, w, iterations), m0, run)
    requires Finished(FloydKernel(n, rows, w, iterations), run[|run| - 1])
    ensures IsPhase(n, w, n, run[|run| - 1].mem)
  {
    KernelSound(n, rows, w, iterations, m0);
    FinalMemory(FloydKernel(n, rows, w, iterations), m0, run);
    IterationEnds(n, rows, w, iterations, m0, iterations - 1);
  }
}
