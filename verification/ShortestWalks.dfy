/** The n phases of Floyd-Warshall compute shortest walks. */
module ShortestWalks {
  import opened Arithmetic
  import opened Grid
  import opened Phases
  import opened FloydWarshall
  import opened FloydWarshallParallel

  /** p is a walk from i to j over vertices 0..n. */
  ghost predicate Walk(n: nat, p: seq<nat>, i: nat, j: nat) {
    && |p| > 0 && p[0] == i && p[|p| - 1] == j
    && forall a | 0 <= a < |p| :: p[a] < n
  }

  ghost function Cost(w: Weights, p: seq<nat>): int {
    if |p| <= 1 then 0 else w(p[0], p[1]) + Cost(w, p[1..])
  }

  /** All inner vertices of p are below k. */
  ghost predicate Through(p: seq<nat>, k: nat) {
    forall a | 0 < a < |p| - 1 :: p[a] < k
  }

  /** d is the least cost of a walk from i to j. */
  ghost predicate IsDistance(n: nat, w: Weights, i: nat, j: nat, d: int) {
    && (exists p :: Walk(n, p, i, j) && Cost(w, p) == d)
    && (forall p | Walk(n, p, i, j) :: Cost(w, p) >= d)
  }

  lemma {:induction false} CostSplit(w: Weights, p: seq<nat>, a: nat)
    requires a < |p|
    ensures Cost(w, p) == Cost(w, p[..a + 1]) + Cost(w, p[a..])
  {
    if a > 0 {
      CostSplit(w, p[1..], a - 1);
      assert p[1..][..a] == p[..a + 1][1..];
      assert p[1..][a - 1..] == p[a..];
    }
  }

  lemma {:induction false} SuffixCheaper(n: nat, w: Weights, p: seq<nat>, b: nat)
    requires Metric(n, w) && b < |p| && forall c | 0 <= c < |p| :: p[c] < n
    ensures Cost(w, p[b..]) <= Cost(w, p)
  {
    if b > 0 {
      SuffixCheaper(n, w, p[1..], b - 1);
      assert p[1..][b - 1..] == p[b..];
    }
  }

  lemma {:induction false} FirstAt(p: seq<nat>, k: nat, c: nat) returns (a: nat)
    requires 0 < c < |p| - 1 && p[c] == k && Through(p, k + 1)
    ensures 0 < a <= c && p[a] == k && Through(p[..a + 1], k)
    decreases c
  {
    if Through(p[..c + 1], k) {
      a := c;
    } else {
      var d :| 0 < d < c && p[d] >= k;
      a := FirstAt(p, k, d);
    }
  }

  lemma {:induction false} LastAt(p: seq<nat>, k: nat, c: nat) returns (b: nat)
    requires 0 < c < |p| - 1 && p[c] == k && Through(p, k + 1)
    ensures c <= b < |p| - 1 && p[b] == k && Through(p[b..], k)
    decreases |p| - c
  {
    if Through(p[c..], k) {
      b := c;
    } else {
      var d :| 0 < d < |p[c..]| - 1 && p[c..][d] >= k;
      b := LastAt(p, k, c + d);
    }
  }

  /** A walk that meets vertex k can be cut to a walk up to k and one on from k, both below k inside. */
  lemma CutAt(n: nat, w: Weights, p: seq<nat>, k: nat, i: nat, j: nat) returns (q: seq<nat>, r: seq<nat>)
    requires Metric(n, w) && k < n && Walk(n, p, i, j) && Through(p, k + 1) && !Through(p, k)
    ensures Walk(n, q, i, k) && Through(q, k) && Walk(n, r, k, j) && Through(r, k)
    ensures Cost(w, q) + Cost(w, r) <= Cost(w, p)
  {
    var c :| 0 < c < |p| - 1 && p[c] >= k;
    var a := FirstAt(p, k, c);
    var b := LastAt(p, k, c);
    q, r := p[..a + 1], p[b..];
    CostSplit(w, p, a);
    SuffixCheaper(n, w, p[a..], b - a);
    assert p[a..][b - a..] == r;
  }

  /** No walk through vertices below k is cheaper than the k-phase value. */
  lemma {:induction false} PhaseIsLower(n: nat, w: Weights, k: nat, p: seq<nat>, i: nat, j: nat)
    requires Metric(n, w) && k <= n && Walk(n, p, i, j) && Through(p, k)
    ensures Value(w, k, i, j) <= Cost(w, p)
  {
    if k == 0 {
      assert |p| <= 2;
    } else if Through(p, k - 1) {
      PhaseIsLower(n, w, k - 1, p, i, j);
    } else {
      var q, r := CutAt(n, w, p, k - 1, i, j);
      PhaseIsLower(n, w, k - 1, q, i, k - 1);
      PhaseIsLower(n, w, k - 1, r, k - 1, j);
    }
  }

  /** The k-phase value is the cost of some walk. */
  lemma {:induction false} PhaseIsCost(n: nat, w: Weights, k: nat, i: nat, j: nat) returns (p: seq<nat>)
    requires k <= n && i < n && j < n
    ensures Walk(n, p, i, j) && Cost(w, p) == Value(w, k, i, j)
  {
    if k == 0 {
      p := [i, j];
      assert Cost(w, p) == w(i, j) + Cost(w, p[1..]);
    } else {
      p := PhaseIsCost(n, w, k - 1, i, j);
      if Value(w, k, i, j) != Value(w, k - 1, i, j) {
        var p1 := PhaseIsCost(n, w, k - 1, i, k - 1);
        var p2 := PhaseIsCost(n, w, k - 1, k - 1, j);
        p := p1 + p2[1..];
        CostSplit(w, p, |p1| - 1);
        assert p[..|p1|] == p1 && p[|p1| - 1..] == p2;
      }
    }
  }

  lemma PhasesAreDistances(n: nat, w: Weights, i: nat, j: nat)
    requires Metric(n, w) && i < n && j < n
    ensures IsDistance(n, w, i, j, Value(w, n, i, j))
  {
    var p := PhaseIsCost(n, w, n, i, j);
    forall p | Walk(n, p, i, j) ensures Cost(w, p) >= Value(w, n, i, j) {
      PhaseIsLower(n, w, n, p, i, j);
    }
  }

  /** The starting matrix |i - j| is a metric already: every phase leaves it as it is. */
  lemma {:induction false} AbsoluteStays(k: nat, i: nat, j: nat)
    ensures Value(Absolute, k, i, j) == Absolute(i, j)
  {
    if k > 0 {
      AbsoluteStays(k - 1, i, j);
      AbsoluteStays(k - 1, i, k - 1);
      AbsoluteStays(k - 1, k - 1, j);
    }
  }

  /** Whatever the interleaving, the division of the rows and the memory's first contents, every run of the
      kernel that ends leaves the shortest-walk distances. */
  lemma ParallelFloydWarshall(n: nat, rows: Rows, w: Weights, iterations: nat, m0: Memory, run: seq<State>,
                              i: nat, j: nat)
    requires n > 0 && Partition(n, rows) && Metric(n, w) && |m0| == RowAt(n, n) && iterations > 0
    requires Run(FloydKernel(n, rows, w, iterations), m0, run)
    requires Finished(FloydKernel(n, rows, w, iterations), run[|run| - 1])
    requires i < n && j < n
    ensures At(n, i, j) < |run[|run| - 1].mem|
    ensures IsDistance(n, w, i, j, run[|run| - 1].mem[At(n, i, j)])
  {
    FinalIsPhase(n, rows, w, iterations, m0, run);
    AtInside(n, i, j);
    PhasesAreDistances(n, w, i, j);
  }

  /** And no run gets stuck on the way. */
  lemma FloydWarshallEnds(n: nat, rows: Rows, w: Weights, iterations: nat, m0: Memory, run: seq<State>)
      returns (s': State)
    requires n > 0 && Partition(n, rows) && Metric(n, w) && |m0| == RowAt(n, n)
    requires Run(FloydKernel(n, rows, w, iterations), m0, run)
    requires !Finished(FloydKernel(n, rows, w, iterations), run[|run| - 1])
    ensures Next(FloydKernel(n, rows, w, iterations), run[|run| - 1], s')
  {
    KernelSound(n, rows, w, iterations, m0);
    ProgramAlternates(n, iterations);
    s' := NeverStuck(FloydKernel(n, rows, w, iterations), m0, run);
  }

  ghost predicate IsAbsolute(n: nat, m: Memory) {
    n > 0 && |m| == RowAt(n, n) && forall c: nat | c < |m| :: m[c] == Absolute(Row(n, c), Col(n, c))
  }

  lemma AbsoluteGood(n: nat, m: Memory)
    requires IsAbsolute(n, m)
    ensures Good(n, m)
  {
    forall i: nat | i < n ensures At(n, i, i) < |m| && m[At(n, i, i)] == 0 { AtInside(n, i, i); }
  }

  /** |i - j| is never more than |i - k| + |k - j|. */
  lemma RelaxedAbsolute(n: nat, k: nat, m: Memory, c: nat)
    requires IsAbsolute(n, m) && k < n && c < |m|
    ensures Relaxed(n, k, m, c) == m[c]
  {
    CellsInside(n, k, c);
    AtInside(n, Row(n, c), k);
    AtInside(n, k, Col(n, c));
  }

  lemma SegmentAbsolute(n: nat, role: Role, m: Memory)
    requires n > 0 && |m| == RowAt(n, n) && (role.Fill? || IsAbsolute(n, m)) && (role.Relax? ==> role.k < n)
    ensures IsAbsolute(n, SegmentResult(n, Absolute, role, m))
  {
    if role.Relax? {
      forall c: nat | c < |m| ensures Relaxed(n, role.k, m, c) == m[c] { RelaxedAbsolute(n, role.k, m, c); }
    }
  }

  lemma AbsoluteIsMetric(n: nat)
    ensures Metric(n, Absolute)
  {
  }

  /** From the end of the first filling on the matrix is |i - j| between segments. */
  lemma {:induction false} StartAbsolute(n: nat, rows: Rows, iterations: nat, m0: Memory, g: nat)
    requires n > 0 && Partition(n, rows) && |m0| == RowAt(n, n) && g >= 2
    ensures IsAbsolute(n, Start(FloydKernel(n, rows, Absolute, iterations), g, m0))
  {
    AbsoluteIsMetric(n);
    if g > 2 { StartAbsolute(n, rows, iterations, m0, g - 1); }
    RoleBounds(n, g - 1);
    StartStep(n, rows, Absolute, iterations, m0, g - 1, RoleOf(n, g - 1));
    SegmentAbsolute(n, RoleOf(n, g - 1), Start(FloydKernel(n, rows, Absolute, iterations), g - 1, m0));
  }

  lemma CellAbsolute(n: nat, rows: Rows, iterations: nat, g: nat, done: seq<nat>, m: Memory, c: nat)
    requires n > 0 && Partition(n, rows) && |m| == RowAt(n, n) && (g >= 2 ==> IsAbsolute(n, m)) && c < |m|
    requires |done| == |rows|
    requires forall t | 0 <= t < |rows| :: done[t] <= FloydKernel(n, rows, Absolute, iterations).work(t, g)
    ensures var v := CellOutcome(FloydKernel(n, rows, Absolute, iterations), g, done, m, c);
            v == m[c] || v == Absolute(Row(n, c), Col(n, c))
  {
    var role, owner := RoleOf(n, g), OwnerIn(n, rows, RoleOf(n, g), c);
    RoleBounds(n, g);
    if owner.Some? {
      CellOwned(n, rows, c);
      var t := owner.value;
      if role.Fill? {
        AloneFill(n, rows, Absolute, iterations, g, t, done[t], m);
      } else {
        AbsoluteGood(n, m);
        AloneRelax(n, rows, Absolute, iterations, g, t, done[t], m);
        RelaxedAbsolute(n, role.k, m, c);
      }
    }
  }

  /** Before the first filling has ended a cell holds what it held at first or |i - j|, from then on |i - j|. */
  lemma StateAbsolute(n: nat, rows: Rows, iterations: nat, m0: Memory, s: State, g: nat, c: nat)
    requires n > 0 && Partition(n, rows) && |m0| == RowAt(n, n) && c < |m0|
    requires Phases.Inv(FloydKernel(n, rows, Absolute, iterations), m0, s, g)
    ensures |s.mem| == |m0|
    ensures s.mem[c] == Absolute(Row(n, c), Col(n, c)) || (g < 2 && s.mem[c] == m0[c])
  {
    var k := FloydKernel(n, rows, Absolute, iterations);
    var m, done := Start(k, g, m0), Progress(k, s, g);
    AbsoluteIsMetric(n);
    if g >= 2 {
      StartAbsolute(n, rows, iterations, m0, g);
    } else if g == 1 {
      StartStep(n, rows, Absolute, iterations, m0, 0, Idle);
    }
    CellAbsolute(n, rows, iterations, g, done, m, c);
    assert s.mem[c] == CellOutcome(k, g, done, m, c);
  }

  /** The kernel's own run: in every state of every run each cell holds its first value or |i - j|, and what a
      thread in a phase reads and adds is |i - j|, so that for n up to 2^30 all of it is within a C int. */
  lemma AbsoluteRuns(n: nat, rows: Rows, iterations: nat, m0: Memory, run: seq<State>, x: nat, c: nat, d: nat, t: nat)
    requires n > 0 && Partition(n, rows) && |m0| == RowAt(n, n) && x < |run| && c < |m0| && d < |m0|
    requires Run(FloydKernel(n, rows, Absolute, iterations), m0, run)
    ensures var m := run[x].mem;
            && |m| == |m0| && (m[c] == m0[c] || m[c] == Absolute(Row(n, c), Col(n, c)))
            && (n <= 0x4000_0000 && Int32(m0[c]) ==> Int32(m[c]))
    ensures t < |rows| && run[x].bar.target[t].None? && RoleOf(n, run[x].bar.pos[t]).Relax? ==>
              && run[x].mem[c] == Absolute(Row(n, c), Col(n, c))
              && (n <= 0x4000_0000 ==> Int32(run[x].mem[c] + run[x].mem[d]))
  {
    var k := FloydKernel(n, rows, Absolute, iterations);
    AbsoluteIsMetric(n);
    KernelSound(n, rows, Absolute, iterations, m0);
    var g := Determined(k, m0, run, x);
    StateAbsolute(n, rows, iterations, m0, run[x], g, c);
    StateAbsolute(n, rows, iterations, m0, run[x], g, d);
    AbsoluteSmall(n, c);
    AbsoluteSmall(n, d);
    RoleBounds(n, g);
    assert t < |rows| && run[x].bar.target[t].None? ==> run[x].bar.pos[t] == g;
  }

  lemma AbsoluteSmall(n: nat, c: nat)
    requires n > 0 && c < RowAt(n, n)
    ensures 0 <= Absolute(Row(n, c), Col(n, c)) < n
  {
    RowCol(n, c);
    RowBound(n, n, c);
  }

  /** Every completed run of it leaves |i - j|. */
  lemma AbsoluteEnds(n: nat, rows: Rows, iterations: nat, m0: Memory, run: seq<State>, i: nat, j: nat)
    requires n > 0 && Partition(n, rows) && |m0| == RowAt(n, n) && iterations > 0 && i < n && j < n
    requires Run(FloydKernel(n, rows, Absolute, iterations), m0, run)
    requires Finished(FloydKernel(n, rows, Absolute, iterations), run[|run| - 1])
    ensures i * n + j < |run[|run| - 1].mem|
    ensures run[|run| - 1].mem[i * n + j] == if i < j then j - i else i - j
  {
    hide Run, Finished, RowAt, Value;
    AtIsProduct(n, i, j);
    AbsoluteIsMetric(n);
    FinalIsPhase(n, rows, Absolute, iterations, m0, run);
    AtInside(n, i, j);
    AbsoluteStays(n, i, j);
  }
}
