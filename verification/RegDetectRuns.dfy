/** Whole runs of the reg-detect kernel: three sweeps of the grid between barriers 0, 1 and 2.

    The memory holds the shared arrays mean, tmp and path, in this order. sum_tang, diff and sum_diff are read by the
    thread that writes them only; RegDetect proves what its loops over them make of mean. */
module RegDetectRuns {
  import opened Arithmetic
  import opened Grid
  import opened Phases
  import opened Sweeps
  import opened RegDetect

  /** What happens after barrier call g - 1. */
  datatype Role = Idle | Means | Sums | Paths

  function RoleOf(g: nat): Role {
    if g == 0 then Idle else if g % 3 == 1 then Means else if g % 3 == 2 then Sums else Paths
  }

  function Written(s: nat, role: Role, a: nat): bool {
    match role
    case Idle => false
    case Means => a < s || 2 * s <= a < 3 * s
    case Sums => s <= a < 2 * s
    case Paths => 2 * s <= a < 3 * s
  }

  function Passes(role: Role): nat {
    match role
    case Idle => 0
    case Means => 2
    case Sums => 1
    case Paths => 1
  }

  /** The update of cell c: the body of the innermost loops. */
  function Update(n: nat, length: nat, role: Role, p: nat, c: nat, m: Memory): (m': Memory)
    ensures |m'| == |m|
  {
    var s := RowAt(n, n);
    if n == 0 || c >= s || |m| != 3 * s then m
    else match role
      case Idle => m
      case Means =>
        if p == 0 then m[c := MeanInit(n, c)][2 * s + c := PathInit(n, c)]
        else if Upper(n, c) then m[c := length * Tang(n, c)] else m
      case Sums => SumsUpdate(n, c, m)
      case Paths => if Upper(n, c) then m[2 * s + c := m[s + Source(n, c)]] else m
  }

  function SumsUpdate(n: nat, c: nat, m: Memory): (m': Memory)
    requires n > 0 && c < RowAt(n, n) && |m| == 3 * RowAt(n, n)
    ensures |m'| == |m|
  {
    var s := RowAt(n, n);
    if !Upper(n, c) then m
    else if Row(n, c) == Col(n, c) then m[s + c := m[Source(n, c)]]
    else m[s + c := m[s + c - 1] + m[Source(n, c)]]
  }

  /** What address a holds after p passes of a segment that started with m. */
  ghost function After(n: nat, length: nat, role: Role, p: nat, a: nat, m: Memory): int {
    var s := RowAt(n, n);
    var c := CellOfThree(s, a);
    if a >= |m| then 0
    else if n == 0 || |m| != 3 * s || p == 0 || !Written(s, role, a) then m[a]
    else match role
      case Idle => m[a]
      case Means => if a < s then if p == 1 then MeanInit(n, c) else Mean(n, length, c) else PathInit(n, c)
      case Sums => TmpAt(m, n, c, m[a])
      case Paths => if Upper(n, c) then m[s + Source(n, c)] else m[a]
  }

  ghost function RegSweep(n: nat, length: nat, rows: Rows, iterations: nat): Sweep {
    Sweep(n, rows, 3, ThreeCalls(iterations), 3 * RowAt(n, n),
      (a: nat) => CellOfThree(RowAt(n, n), a),
      (g: nat) => Passes(RoleOf(g)),
      (g: nat, p: nat, c: nat, m: Memory) => Update(n, length, RoleOf(g), p, c, m),
      (g: nat, a: nat) => Written(RowAt(n, n), RoleOf(g), a),
      (g: nat, p: nat, a: nat, m: Memory) => After(n, length, RoleOf(g), p, a, m))
  }

  lemma UpdateFrame(n: nat, length: nat, role: Role, p: nat, c: nat, m: Memory, a: nat)
    requires n > 0 && c < RowAt(n, n) && |m| == 3 * RowAt(n, n) && a < |m|
    requires !(Written(RowAt(n, n), role, a) && CellOfThree(RowAt(n, n), a) == c)
    ensures Update(n, length, role, p, c, m)[a] == m[a]
  {
    hide Upper, Tang, MeanInit, PathInit, Source, Row, Col, RowAt;
  }

  lemma UpdateTouches(sw: Sweep, n: nat, length: nat, rows: Rows, iterations: nat, g: nat, p: nat, c: nat, m: Memory)
    requires sw == RegSweep(n, length, rows, iterations) && n > 0
    requires c < RowAt(n, n) && |m| == sw.size
    ensures Touches(sw, g, c, m, sw.update(g, p, c, m))
  {
    hide Update, RowAt;
    forall a: nat | a < |m| && !(sw.written(g, a) && sw.cellOf(a) == c) ensures sw.update(g, p, c, m)[a] == m[a] {
      UpdateFrame(n, length, RoleOf(g), p, c, m, a);
    }
  }

  /** The cells an update reads: its own and, in the other rows, one nobody writes. */
  lemma SourceIsTop(n: nat, c: nat)
    requires n > 0 && c < RowAt(n, n) && Upper(n, c)
    ensures Row(n, c) < Col(n, c) ==> c > 0 && Row(n, c - 1) == Row(n, c) && Col(n, c - 1) == Col(n, c) - 1
  {
    RowCol(n, c);
    if Row(n, c) < Col(n, c) { AtCell(n, Row(n, c), Col(n, c) - 1); }
  }

  lemma UpdateLocal(sw: Sweep, n: nat, length: nat, rows: Rows, iterations: nat, g: nat, p: nat, c: nat,
                    m1: Memory, m2: Memory)
    requires sw == RegSweep(n, length, rows, iterations) && n > 0
    requires c < RowAt(n, n) && Alike(sw, g, c, m1, m2)
    ensures SameAt(sw, c, sw.update(g, p, c, m1), sw.update(g, p, c, m2))
  {
    hide TmpAt, RowAt, Row, Col, Mean, MeanInit, PathInit, Source, Tang;
    if Upper(n, c) {
      SourceIsTop(n, c);
      var s, o := RowAt(n, n), Source(n, c);
      assert RoleOf(g).Sums? ==> m1[o] == m2[o];
      assert RoleOf(g).Paths? ==> m1[s + o] == m2[s + o];
    }
  }

  lemma MeansReach(n: nat, length: nat, p: nat, c: nat, m: Memory, m': Memory, a: nat)
    requires n > 0 && c < RowAt(n, n) && |m| == |m'| == 3 * RowAt(n, n) && p < 2
    requires a == c || a == 2 * RowAt(n, n) + c
    requires m'[a] == After(n, length, Means, p, a, m)
    ensures a < |Update(n, length, Means, p, c, m')|
    ensures Update(n, length, Means, p, c, m')[a] == After(n, length, Means, p + 1, a, m)
  {
    hide Upper, Tang, MeanInit, PathInit, Source, Row, Col, RowAt;
  }

  lemma TmpLeft(mean: seq<int>, n: nat, c: nat, was: int, wasLeft: int)
    requires n > 0 && 0 < c < RowAt(n, n) <= |mean| && Row(n, c) < Col(n, c)
    ensures TmpAt(mean, n, c, was) == TmpAt(mean, n, c - 1, wasLeft) + mean[Source(n, c)]
  {
    hide TmpAt;
    RowCol(n, c);
    RowBound(n, n, c);
    TmpNext(mean, n, Row(n, c), Col(n, c), was);
    TmpUpper(mean, n, Row(n, c), Col(n, c) - 1, was, wasLeft);
  }

  lemma TmpTop(mean: seq<int>, n: nat, c: nat, was: int)
    requires n > 0 && c < RowAt(n, n) <= |mean| && Row(n, c) == Col(n, c)
    ensures TmpAt(mean, n, c, was) == mean[Source(n, c)]
  {
    RowCol(n, c);
  }

  lemma TmpBelow(mean: seq<int>, n: nat, c: nat, was: int)
    requires n > 0 && RowAt(n, n) <= |mean| && !Upper(n, c)
    ensures TmpAt(mean, n, c, was) == was
  {
  }

  lemma SumsReach(n: nat, c: nat, m: Memory, m': Memory)
    requires n > 0 && c < RowAt(n, n) && |m| == |m'| == 3 * RowAt(n, n)
    requires Upper(n, c) ==> m'[Source(n, c)] == m[Source(n, c)]
    requires m'[RowAt(n, n) + c] == m[RowAt(n, n) + c]
    requires Row(n, c) < Col(n, c) ==>
               c > 0 && m'[RowAt(n, n) + c - 1] == TmpAt(m, n, c - 1, m[RowAt(n, n) + c - 1])
    ensures SumsUpdate(n, c, m')[RowAt(n, n) + c] == TmpAt(m, n, c, m[RowAt(n, n) + c])
  {
    hide TmpAt, RowAt, Row, Col, Source;
    if Row(n, c) < Col(n, c) {
      TmpLeft(m, n, c, m[RowAt(n, n) + c], m[RowAt(n, n) + c - 1]);
    } else if Upper(n, c) {
      TmpTop(m, n, c, m[RowAt(n, n) + c]);
    } else {
      TmpBelow(m, n, c, m[RowAt(n, n) + c]);
    }
  }

  lemma SumsReached(sw: Sweep, n: nat, length: nat, rows: Rows, iterations: nat, g: nat, c: nat, m: Memory, m': Memory)
    requires sw == RegSweep(n, length, rows, iterations) && n > 0 && RoleOf(g).Sums?
    requires c < RowAt(n, n) && Reached(sw, g, 0, c, m, m')
    ensures SumsUpdate(n, c, m')[RowAt(n, n) + c] == TmpAt(m, n, c, m[RowAt(n, n) + c])
  {
    hide TmpAt, RowAt, Row, Col, SumsUpdate;
    var s := RowAt(n, n);
    assert m'[s + c] == m[s + c];
    if Upper(n, c) { SourceIsTop(n, c); }
    if Row(n, c) < Col(n, c) { assert m'[s + c - 1] == TmpAt(m, n, c - 1, m[s + c - 1]); }
    SumsReach(n, c, m, m');
  }

  lemma PathsReached(sw: Sweep, n: nat, length: nat, rows: Rows, iterations: nat, g: nat, c: nat, m: Memory, m': Memory)
    requires sw == RegSweep(n, length, rows, iterations) && n > 0 && RoleOf(g).Paths?
    requires c < RowAt(n, n) && Reached(sw, g, 0, c, m, m')
    ensures m'[2 * RowAt(n, n) + c] == m[2 * RowAt(n, n) + c]
    ensures Upper(n, c) ==> m'[RowAt(n, n) + Source(n, c)] == m[RowAt(n, n) + Source(n, c)]
  {
    hide TmpAt, RowAt, Row, Col, Upper;
  }

  lemma UpdateReaches(sw: Sweep, n: nat, length: nat, rows: Rows, iterations: nat, g: nat, p: nat, c: nat,
                      m: Memory, m': Memory)
    requires sw == RegSweep(n, length, rows, iterations) && n > 0 && p < sw.passes(g)
    requires c < RowAt(n, n) && Reached(sw, g, p, c, m, m')
    ensures Updated(sw, g, p + 1, c, m, sw.update(g, p, c, m'))
  {
    hide TmpAt, RowAt, Row, Col, Upper, Mean, MeanInit, PathInit, SumsUpdate, Source, Tang;
    var s := RowAt(n, n);
    match RoleOf(g)
    case Idle =>
    case Means =>
      MeansReach(n, length, p, c, m, m', c);
      MeansReach(n, length, p, c, m, m', 2 * s + c);
    case Sums =>
      SumsReached(sw, n, length, rows, iterations, g, c, m, m');
    case Paths =>
      PathsReached(sw, n, length, rows, iterations, g, c, m, m');
  }

  lemma SweepProper(n: nat, length: nat, rows: Rows, iterations: nat)
    requires n > 0 && Partition(n, rows)
    ensures Proper(RegSweep(n, length, rows, iterations))
  {
    var sw := RegSweep(n, length, rows, iterations);
    RowMonotone(n, 0, n);
    forall g: nat, p: nat, c: nat, m: Memory | p < sw.passes(g) && c < RowAt(n, n) && |m| == sw.size
      ensures Touches(sw, g, c, m, sw.update(g, p, c, m))
    {
      UpdateTouches(sw, n, length, rows, iterations, g, p, c, m);
    }
    forall g: nat, p: nat, c: nat, m1: Memory, m2: Memory | p < sw.passes(g) && c < RowAt(n, n)
                                                          && Alike(sw, g, c, m1, m2)
      ensures SameAt(sw, c, sw.update(g, p, c, m1), sw.update(g, p, c, m2))
    {
      UpdateLocal(sw, n, length, rows, iterations, g, p, c, m1, m2);
    }
    forall g: nat, p: nat, c: nat, m: Memory, m': Memory | p < sw.passes(g) && c < RowAt(n, n)
                                                         && Reached(sw, g, p, c, m, m')
      ensures Updated(sw, g, p + 1, c, m, sw.update(g, p, c, m'))
    {
      UpdateReaches(sw, n, length, rows, iterations, g, p, c, m, m');
    }
  }

  /** All column sums, and all paths, are complete. */
  ghost predicate SumsDone(n: nat, length: nat, m: Memory)
    requires n > 0
  {
    && 2 * RowAt(n, n) <= |m|
    && forall c: nat | c < RowAt(n, n) && Upper(n, c) ::
         m[RowAt(n, n) + c] == length * Weights(Col(n, c) - Row(n, c), Row(n, c))
  }

  ghost predicate PathsDone(n: nat, length: nat, m: Memory)
    requires n > 0
  {
    && 3 * RowAt(n, n) <= |m|
    && forall c: nat | c < RowAt(n, n) && Upper(n, c) ::
         m[2 * RowAt(n, n) + c] == length * Weights(Row(n, c), Col(n, c) - Row(n, c))
  }

  /** Left of the diagonal the paths keep their starting values. */
  ghost predicate PathsLeft(n: nat, m: Memory)
    requires n > 0
  {
    && 3 * RowAt(n, n) <= |m|
    && forall c: nat | c < RowAt(n, n) && !Upper(n, c) :: m[2 * RowAt(n, n) + c] == PathInit(n, c)
  }

  /** What the memory before segment g holds. */
  ghost predicate Stage(n: nat, length: nat, g: nat, m: Memory)
    requires n > 0
  {
    && |m| == 3 * RowAt(n, n)
    && (g >= 2 ==> MeansDone(n, length, m) && PathsLeft(n, m))
    && (g >= 2 && !RoleOf(g - 1).Means? ==> SumsDone(n, length, m))
    && (g >= 2 && RoleOf(g - 1).Paths? ==> PathsDone(n, length, m))
  }

  lemma MeansStage(sw: Sweep, n: nat, length: nat, rows: Rows, iterations: nat, g: nat, m: Memory, m': Memory)
    requires sw == RegSweep(n, length, rows, iterations) && n > 0 && SegmentDone(sw, g, m, m')
    requires RoleOf(g).Means? || MeansDone(n, length, m)
    ensures MeansDone(n, length, m')
  {
    hide RowAt, Row, Col, Upper, Mean, MeanInit, PathInit, TmpAt, Source, Tang;
    forall c: nat | c < RowAt(n, n) ensures m'[c] == Mean(n, length, c) {}
  }

  lemma PathsLeftStage(sw: Sweep, n: nat, length: nat, rows: Rows, iterations: nat, g: nat, m: Memory, m': Memory)
    requires sw == RegSweep(n, length, rows, iterations) && n > 0 && SegmentDone(sw, g, m, m')
    requires RoleOf(g).Means? || PathsLeft(n, m)
    ensures PathsLeft(n, m')
  {
    hide RowAt, Row, Col, Upper, Mean, MeanInit, PathInit, TmpAt, Source, Tang;
    forall c: nat | c < RowAt(n, n) && !Upper(n, c) ensures m'[2 * RowAt(n, n) + c] == PathInit(n, c) {}
  }

  lemma SumsStage(sw: Sweep, n: nat, length: nat, rows: Rows, iterations: nat, g: nat, m: Memory, m': Memory, c: nat)
    requires sw == RegSweep(n, length, rows, iterations) && n > 0 && SegmentDone(sw, g, m, m')
    requires RoleOf(g).Sums? && MeansDone(n, length, m) && c < RowAt(n, n) && Upper(n, c)
    ensures m'[RowAt(n, n) + c] == length * Weights(Col(n, c) - Row(n, c), Row(n, c))
  {
    hide RowAt, Row, Col, MeansDone, Weights, Source;
    RowCol(n, c);
    DiagonalIsWeights(n, length, m, Row(n, c), Col(n, c) - Row(n, c));
    assert m'[RowAt(n, n) + c] == TmpAt(m, n, c, m[RowAt(n, n) + c]);
  }

  lemma SourceCell(n: nat, c: nat)
    requires n > 0 && Upper(n, c)
    ensures Upper(n, Source(n, c)) && Row(n, Source(n, c)) == Col(n, c) - Row(n, c)
    ensures Col(n, Source(n, c)) - Row(n, Source(n, c)) == Row(n, c)
  {
    RowCol(n, c);
    AtInside(n, Col(n, c) - Row(n, c), Col(n, c));
  }

  lemma PathsStage(sw: Sweep, n: nat, length: nat, rows: Rows, iterations: nat, g: nat, m: Memory, m': Memory, c: nat)
    requires sw == RegSweep(n, length, rows, iterations) && n > 0 && SegmentDone(sw, g, m, m')
    requires RoleOf(g).Paths? && SumsDone(n, length, m) && c < RowAt(n, n) && Upper(n, c)
    ensures m'[2 * RowAt(n, n) + c] == length * Weights(Row(n, c), Col(n, c) - Row(n, c))
  {
    hide RowAt, Row, Col, Weights, Source, Upper;
    SourceCell(n, c);
    assert m'[2 * RowAt(n, n) + c] == m[RowAt(n, n) + Source(n, c)];
  }

  lemma StageStep(sw: Sweep, n: nat, length: nat, rows: Rows, iterations: nat, g: nat, m: Memory, m': Memory)
    requires sw == RegSweep(n, length, rows, iterations) && n > 0
    requires Stage(n, length, g, m) && SegmentDone(sw, g, m, m')
    ensures Stage(n, length, g + 1, m')
  {
    hide RowAt, Row, Col, Weights, Source, MeansDone, PathsLeft, SegmentDone;
    SegmentSize(sw, g, m, m');
    if g >= 1 {
      MeansStage(sw, n, length, rows, iterations, g, m, m');
      PathsLeftStage(sw, n, length, rows, iterations, g, m, m');
    }
    if RoleOf(g).Sums? {
      forall c: nat | c < RowAt(n, n) && Upper(n, c)
        ensures m'[RowAt(n, n) + c] == length * Weights(Col(n, c) - Row(n, c), Row(n, c))
      {
        SumsStage(sw, n, length, rows, iterations, g, m, m', c);
      }
    } else if RoleOf(g).Paths? {
      SumsStay(sw, n, length, rows, iterations, g, m, m');
      forall c: nat | c < RowAt(n, n) && Upper(n, c)
        ensures m'[2 * RowAt(n, n) + c] == length * Weights(Row(n, c), Col(n, c) - Row(n, c))
      {
        PathsStage(sw, n, length, rows, iterations, g, m, m', c);
      }
    }
  }

  lemma SegmentSize(sw: Sweep, g: nat, m: Memory, m': Memory)
    requires SegmentDone(sw, g, m, m')
    ensures |m| == |m'| == sw.size
  {
  }

  lemma SumsStay(sw: Sweep, n: nat, length: nat, rows: Rows, iterations: nat, g: nat, m: Memory, m': Memory)
    requires sw == RegSweep(n, length, rows, iterations) && n > 0 && SegmentDone(sw, g, m, m')
    requires RoleOf(g).Paths? && SumsDone(n, length, m)
    ensures SumsDone(n, length, m')
  {
    hide RowAt, Row, Col, Weights, Source, Upper;
    forall c: nat | c < RowAt(n, n) && Upper(n, c) ensures m'[RowAt(n, n) + c] == m[RowAt(n, n) + c] {}
  }

  lemma SegmentStarts(n: nat, length: nat, rows: Rows, iterations: nat, m0: Memory, g: nat)
    requires n > 0 && Partition(n, rows) && |m0| == 3 * RowAt(n, n)
    ensures var sw := RegSweep(n, length, rows, iterations);
            SegmentDone(sw, g, Start(KernelOf(sw), g, m0), Start(KernelOf(sw), g + 1, m0))
  {
    hide Proper, SegmentDone;
    SweepProper(n, length, rows, iterations);
    StartStep(RegSweep(n, length, rows, iterations), g, m0);
  }

  lemma FirstStage(n: nat, length: nat, m: Memory)
    requires n > 0 && |m| == 3 * RowAt(n, n)
    ensures Stage(n, length, 0, m)
  {
  }

  lemma {:induction false} StartStage(n: nat, length: nat, rows: Rows, iterations: nat, m0: Memory, g: nat)
    requires n > 0 && Partition(n, rows) && |m0| == 3 * RowAt(n, n)
    ensures Stage(n, length, g, Start(KernelOf(RegSweep(n, length, rows, iterations)), g, m0))
  {
    hide *;
    if g > 0 {
      var sw := RegSweep(n, length, rows, iterations);
      StartStage(n, length, rows, iterations, m0, g - 1);
      SegmentStarts(n, length, rows, iterations, m0, g - 1);
      StageStep(sw, n, length, rows, iterations, g - 1, Start(KernelOf(sw), g - 1, m0), Start(KernelOf(sw), g, m0));
    } else {
      FirstStart(KernelOf(RegSweep(n, length, rows, iterations)), m0);
      FirstStage(n, length, m0);
    }
  }

  /** Every run that ends has every path, mean and column sum complete. */
  lemma FinalStage(n: nat, length: nat, rows: Rows, iterations: nat, m0: Memory, run: seq<State>)
    requires n > 0 && Partition(n, rows) && |m0| == 3 * RowAt(n, n) && iterations > 0
    requires Run(KernelOf(RegSweep(n, length, rows, iterations)), m0, run)
    requires Finished(KernelOf(RegSweep(n, length, rows, iterations)), run[|run| - 1])
    ensures MeansDone(n, length, run[|run| - 1].mem) && PathsDone(n, length, run[|run| - 1].mem)
    ensures PathsLeft(n, run[|run| - 1].mem)
  {
    hide MeansDone, PathsDone, PathsLeft, Run, Finished;
    var sw := RegSweep(n, length, rows, iterations);
    SweepProper(n, length, rows, iterations);
    KernelSound(sw, m0);
    FinalMemory(KernelOf(sw), m0, run);
    StartStage(n, length, rows, iterations, m0, |sw.prog| + 1);
  }

  lemma PathOf(n: nat, length: nat, m: Memory, j: nat, i: nat)
    requires j <= i < n && PathsDone(n, length, m)
    ensures 2 * RowAt(n, n) + At(n, j, i) < |m|
    ensures m[2 * RowAt(n, n) + At(n, j, i)] == length * Weights(j, i - j)
  {
    AtInside(n, j, i);
  }

  /** Whatever the interleaving, the division of the rows and the memory's first contents, every run that
      ends leaves the paths of the sequential recurrence; their closed form is length * Weights(j, i - j),
      with 6 * Weights(j, d) == (j + 1)(j + 2)(2j + 3 + 3d). */
  lemma PathsAreRecurrence(n: nat, length: nat, rows: Rows, iterations: nat, m0: Memory, run: seq<State>,
                           j: nat, i: nat)
    requires n > 0 && Partition(n, rows) && |m0| == 3 * RowAt(n, n) && iterations > 0 && j <= i < n
    requires Run(KernelOf(RegSweep(n, length, rows, iterations)), m0, run)
    requires Finished(KernelOf(RegSweep(n, length, rows, iterations)), run[|run| - 1])
    ensures var m, s := run[|run| - 1].mem, RowAt(n, n);
            && 2 * s + At(n, j, i) < |m| && (j > 0 ==> 2 * s + At(n, j - 1, i - 1) < |m|)
            && m[At(n, j, i)] == length * ((j + 1) * (i + 1))
            && m[2 * s + At(n, j, i)] == m[At(n, j, i)] + (if j == 0 then 0 else m[2 * s + At(n, j - 1, i - 1)])
            && m[2 * s + At(n, j, i)] == length * Weights(j, i - j)
  {
    hide RowAt, Row, Col, Upper, MeansDone, PathsDone, Finished, RegSweep;
    FinalStage(n, length, rows, iterations, m0, run);
    var m := run[|run| - 1].mem;
    MeanOf(n, length, m, j, i);
    PathOf(n, length, m, j, i);
    if j > 0 {
      PathOf(n, length, m, j - 1, i - 1);
      Distribute(length, Weights(j - 1, i - j), (j + 1) * (i + 1));
    }
  }

  lemma LeftCell(n: nat, j: nat, i: nat)
    requires i < j < n
    ensures At(n, j, i) < RowAt(n, n) && !Upper(n, At(n, j, i))
    ensures MeanInit(n, At(n, j, i)) == 0
    ensures PathInit(n, At(n, j, i)) == if i == 0 then 0 else j * (i - 1) / n
  {
    AtInside(n, j, i);
    TruncDivTruncates(j - i, n);
    TruncatesOnce(TruncDiv(j - i, n), 0, j - i, n);
    if i == 0 {
      TruncDivTruncates(j * (i - 1), n);
      TruncatesOnce(TruncDiv(j * (i - 1), n), 0, j * (i - 1), n);
    } else {
      ProductBound(j, i - 1, j, i - 1);
    }
  }

  /** Left of the diagonal every completed run leaves the starting values: 0 in mean, and in path the quotient
      of j(i - 1) by n cut off toward zero, which is 0 in column 0. */
  lemma LeftOfDiagonal(n: nat, length: nat, rows: Rows, iterations: nat, m0: Memory, run: seq<State>, j: nat, i: nat)
    requires n > 0 && Partition(n, rows) && |m0| == 3 * RowAt(n, n) && iterations > 0 && i < j < n
    requires Run(KernelOf(RegSweep(n, length, rows, iterations)), m0, run)
    requires Finished(KernelOf(RegSweep(n, length, rows, iterations)), run[|run| - 1])
    ensures var m, c := run[|run| - 1].mem, At(n, j, i);
            && 2 * RowAt(n, n) + c < |m| && m[c] == 0
            && m[2 * RowAt(n, n) + c] == if i == 0 then 0 else j * (i - 1) / n
  {
    hide RowAt, Row, Col, Upper, PathInit, MeanInit, Finished, RegSweep;
    FinalStage(n, length, rows, iterations, m0, run);
    LeftCell(n, j, i);
  }

  /** No run gets stuck on the way. */
  lemma RegDetectEnds(n: nat, length: nat, rows: Rows, iterations: nat, m0: Memory, run: seq<State>)
      returns (s': State)
    requires n > 0 && Partition(n, rows) && |m0| == 3 * RowAt(n, n)
    requires Run(KernelOf(RegSweep(n, length, rows, iterations)), m0, run)
    requires !Finished(KernelOf(RegSweep(n, length, rows, iterations)), run[|run| - 1])
    ensures Next(KernelOf(RegSweep(n, length, rows, iterations)), run[|run| - 1], s')
  {
    SweepProper(n, length, rows, iterations);
    KernelSound(RegSweep(n, length, rows, iterations), m0);
    s' := NeverStuck(KernelOf(RegSweep(n, length, rows, iterations)), m0, run);
  }

  ghost predicate AllInt32(m: Memory) { forall a: nat | a < |m| :: Int32(m[a]) }

  lemma InitFits(n: nat, length: nat, c: nat)
    requires 0 < n <= 64 && length <= 2048 && c < RowAt(n, n)
    ensures Int32(MeanInit(n, c)) && Int32(PathInit(n, c)) && Int32(Mean(n, length, c))
  {
    RowCol(n, c);
    RowBound(n, n, c);
    var i: int, j: int := Row(n, c), Col(n, c);
    hide TruncDiv;
    ProductMonotone(1, n, 4096);
    TruncDivBound(i - j, n, 4096);
    PathProduct(i, j);
    TruncDivBound(i * (j - 1), n, 4096);
    ProductBound(i + 1, j + 1, 64, 64);
    ProductBound(length, Tang(n, c), 2048, 4096);
  }

  lemma PathProduct(i: int, j: int)
    requires 0 <= i <= 64 && 0 <= j <= 64
    ensures Magnitude(i * (j - 1)) <= 4096
  {
    if j > 0 { ProductBound(i, j - 1, 64, 64); }
  }

  /** The values Accumulate leaves in sum_diff fit as well. */
  lemma RunningSumFits(n: nat, length: nat, c: nat, k: nat)
    requires 0 < n <= 64 && length <= 2048 && c < RowAt(n, n) && k < length
    ensures Int32((k + 1) * Tang(n, c))
  {
    RowCol(n, c);
    RowBound(n, n, c);
    ProductBound(Row(n, c) + 1, Col(n, c) + 1, 64, 64);
    ProductBound(k + 1, Tang(n, c), 2048, 4096);
  }

  lemma SumFits(n: nat, length: nat, m: Memory, c: nat)
    requires 0 < n <= 64 && length <= 2048 && c < RowAt(n, n) && Upper(n, c) && MeansDone(n, length, m)
    ensures Int32(TmpAt(m, n, c, 0))
  {
    hide MeansDone, RowAt, Row, Col, Weights;
    RowCol(n, c);
    var k := Col(n, c) - Row(n, c);
    DiagonalIsWeights(n, length, m, Row(n, c), k);
    WeightsBound(k, Row(n, c), n);
    ProductBound(n, n, 64, 64);
    ProductBound(k + 1, n * n, 64, 4096);
    ProductBound(length, Weights(k, Row(n, c)), 2048, 64 * 4096);
  }

  lemma AfterFits(n: nat, length: nat, g: nat, p: nat, a: nat, m: Memory)
    requires 0 < n <= 64 && length <= 2048 && Stage(n, length, g, m) && AllInt32(m) && a < |m|
    ensures Int32(After(n, length, RoleOf(g), p, a, m))
  {
    var c := CellOfThree(RowAt(n, n), a);
    hide RowAt, Row, Col, Mean, MeanInit, PathInit, Source, SumsDone, PathsDone;
    InitFits(n, length, c);
    if RoleOf(g).Sums? && Upper(n, c) { SumFits(n, length, m, c); }
  }

  lemma {:induction false} StartFits(n: nat, length: nat, rows: Rows, iterations: nat, m0: Memory, g: nat)
    requires 0 < n <= 64 && length <= 2048 && Partition(n, rows) && |m0| == 3 * RowAt(n, n) && AllInt32(m0)
    ensures AllInt32(Start(KernelOf(RegSweep(n, length, rows, iterations)), g, m0))
  {
    hide *;
    if g > 0 {
      var sw := RegSweep(n, length, rows, iterations);
      var m, m' := Start(KernelOf(sw), g - 1, m0), Start(KernelOf(sw), g, m0);
      StartFits(n, length, rows, iterations, m0, g - 1);
      StartStage(n, length, rows, iterations, m0, g - 1);
      SegmentStarts(n, length, rows, iterations, m0, g - 1);
      SegmentFits(sw, n, length, rows, iterations, g - 1, m, m');
    } else {
      FirstStart(KernelOf(RegSweep(n, length, rows, iterations)), m0);
    }
  }

  lemma SegmentFits(sw: Sweep, n: nat, length: nat, rows: Rows, iterations: nat, g: nat, m: Memory, m': Memory)
    requires sw == RegSweep(n, length, rows, iterations) && 0 < n <= 64 && length <= 2048
    requires Stage(n, length, g, m) && AllInt32(m) && SegmentDone(sw, g, m, m')
    ensures AllInt32(m')
  {
    hide Stage, After;
    forall a: nat | a < |m'| ensures Int32(m'[a]) {
      AfterFits(n, length, g, Passes(RoleOf(g)), a, m);
    }
  }

  /** With the kernel's sizes, no state of any run has a value that a C int could not hold. */
  lemma NoOverflow(n: nat, length: nat, rows: Rows, iterations: nat, m0: Memory, run: seq<State>, x: nat, a: nat)
    requires 0 < n <= 64 && length <= 2048 && Partition(n, rows) && |m0| == 3 * RowAt(n, n) && AllInt32(m0)
    requires Run(KernelOf(RegSweep(n, length, rows, iterations)), m0, run) && x < |run| && a < 3 * RowAt(n, n)
    ensures |run[x].mem| == 3 * RowAt(n, n) && Int32(run[x].mem[a])
  {
    var sw := RegSweep(n, length, rows, iterations);
    SweepProper(n, length, rows, iterations);
    var g, p := EveryValue(sw, m0, run, x, a);
    StartStage(n, length, rows, iterations, m0, g);
    StartFits(n, length, rows, iterations, m0, g);
    AfterFits(n, length, g, p, a, Start(KernelOf(sw), g, m0));
  }
}
