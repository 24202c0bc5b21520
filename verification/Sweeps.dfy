/** Kernels whose threads sweep over the cells of their rows a number of times in each segment.

    The memory holds several n by n buffers; every address belongs to a cell. The update of a cell may
    change that cell's addresses among those the segment writes, and may read its own row there and
    everything the segment does not write. Then a segment acts on the memory as a whole: every cell
    becomes what `after` says of the memory the segment started with. */
module Sweeps {
  import opened Wrappers
  import opened Grid
  import opened Phases

  datatype Sweep = Sweep(
    n: nat,
    rows: Rows,
    barriers: nat,
    prog: seq<nat>,
    size: nat,
    cellOf: nat -> nat,
    passes: nat -> nat,
    update: (nat, nat, nat, Memory) -> Memory,
    written: (nat, nat) -> bool,
    after: (nat, nat, nat, Memory) -> int)

  /** The kernel whose thread t does operation l of segment g on cell l of pass l / (its cells). */
  ghost function KernelOf(sw: Sweep): Phases.Kernel {
    Phases.Kernel(
      Config(|sw.rows|, sw.barriers, sw.prog), sw.prog,
      (t: nat, g: nat) => WorkOf(sw, t, g),
      (t: nat, g: nat, l: nat, m: Memory) => Operation(sw, t, g, l, m),
      (g: nat, a: nat) => OwnerOf(sw, g, a),
      (g: nat, m: Memory) => |m| == sw.size)
  }

  ghost function WorkOf(sw: Sweep, t: nat, g: nat): nat {
    if t < |sw.rows| then RowAt(OwnCells(sw.n, sw.rows, t), sw.passes(g)) else 0
  }

  ghost function Operation(sw: Sweep, t: nat, g: nat, l: nat, m: Memory): Memory {
    if t < |sw.rows| && OwnCells(sw.n, sw.rows, t) > 0 then
      var cells := OwnCells(sw.n, sw.rows, t);
      sw.update(g, Row(cells, l), RowAt(sw.n, sw.rows[t].0) + Col(cells, l), m)
    else m
  }

  ghost function OwnerOf(sw: Sweep, g: nat, a: nat): Option<nat> {
    if sw.n > 0 && sw.written(g, a) then Owner(sw.rows, Row(sw.n, sw.cellOf(a))) else None
  }

  ghost predicate WellFormed(sw: Sweep) {
    && sw.n > 0 && Partition(sw.n, sw.rows)
    && (forall i | 0 <= i < |sw.prog| :: sw.prog[i] < sw.barriers)
    && (forall a: nat | a < sw.size :: sw.cellOf(a) < RowAt(sw.n, sw.n))
  }

  /** An update of cell c changes only its addresses among the written ones. */
  ghost predicate Touches(sw: Sweep, g: nat, c: nat, m: Memory, m': Memory) {
    && |m'| == |m| == sw.size
    && forall a: nat | a < |m| && !(sw.written(g, a) && sw.cellOf(a) == c) :: m'[a] == m[a]
  }

  /** m1 and m2 hold the same wherever an update of cell c may read. */
  ghost predicate Alike(sw: Sweep, g: nat, c: nat, m1: Memory, m2: Memory)
    requires sw.n > 0
  {
    && |m1| == |m2| == sw.size
    && forall a: nat | a < |m1| && (sw.written(g, a) ==> Row(sw.n, sw.cellOf(a)) == Row(sw.n, c)) :: m1[a] == m2[a]
  }

  ghost predicate SameAt(sw: Sweep, c: nat, m1: Memory, m2: Memory) {
    && |m1| == |m2| == sw.size
    && forall a: nat | a < |m1| && sw.cellOf(a) == c :: m1[a] == m2[a]
  }

  /** m' is m after p passes and the part of pass p before cell c, as far as cell c's update may read. */
  ghost predicate Reached(sw: Sweep, g: nat, p: nat, c: nat, m: Memory, m': Memory)
    requires sw.n > 0
  {
    && |m'| == |m| == sw.size
    && (forall a: nat | a < |m| && !sw.written(g, a) :: m'[a] == m[a])
    && (forall a: nat | a < |m| && sw.written(g, a) && Row(sw.n, sw.cellOf(a)) == Row(sw.n, c) ::
          m'[a] == sw.after(g, if sw.cellOf(a) < c then p + 1 else p, a, m))
  }

  ghost predicate Updated(sw: Sweep, g: nat, p: nat, c: nat, m: Memory, m': Memory) {
    |m'| == |m| && forall a: nat | a < |m| && sw.written(g, a) && sw.cellOf(a) == c :: m'[a] == sw.after(g, p, a, m)
  }

  ghost predicate Proper(sw: Sweep) {
    && WellFormed(sw)
    && (forall g: nat, p: nat, c: nat, m: Memory | p < sw.passes(g) && c < RowAt(sw.n, sw.n) && |m| == sw.size ::
          Touches(sw, g, c, m, sw.update(g, p, c, m)))
    && (forall g: nat, p: nat, c: nat, m1: Memory, m2: Memory | p < sw.passes(g) && c < RowAt(sw.n, sw.n)
                                                              && Alike(sw, g, c, m1, m2) ::
          SameAt(sw, c, sw.update(g, p, c, m1), sw.update(g, p, c, m2)))
    && (forall g: nat, p: nat, c: nat, m: Memory, m': Memory | p < sw.passes(g) && c < RowAt(sw.n, sw.n)
                                                             && Reached(sw, g, p, c, m, m') ::
          Updated(sw, g, p + 1, c, m, sw.update(g, p, c, m')))
    && (forall g: nat, a: nat, m: Memory | a < |m| == sw.size :: sw.after(g, 0, a, m) == m[a])
  }

  lemma ProperWellFormed(sw: Sweep)
    requires Proper(sw)
    ensures WellFormed(sw)
  {
  }

  /** Operation At(cells, p, l) of thread t updates its l-th cell in pass p. */
  lemma OperationIs(sw: Sweep, t: nat, g: nat, p: nat, l: nat, m: Memory)
    requires WellFormed(sw) && t < |sw.rows| && l < OwnCells(sw.n, sw.rows, t) && p < sw.passes(g)
    ensures var c := RowAt(sw.n, sw.rows[t].0) + l;
            && c < RowAt(sw.n, sw.n) && Owner(sw.rows, Row(sw.n, c)) == Some(t)
            && Operation(sw, t, g, At(OwnCells(sw.n, sw.rows, t), p, l), m) == sw.update(g, p, c, m)
  {
    OwnCellAt(sw.n, sw.rows, t, l);
    AtCell(OwnCells(sw.n, sw.rows, t), p, l);
  }

  lemma OperationAt(sw: Sweep, t: nat, g: nat, k: nat) returns (p: nat, l: nat)
    requires WellFormed(sw) && t < |sw.rows| && k < WorkOf(sw, t, g)
    ensures p < sw.passes(g) && l < OwnCells(sw.n, sw.rows, t) && k == At(OwnCells(sw.n, sw.rows, t), p, l)
  {
    var cells := OwnCells(sw.n, sw.rows, t);
    if cells == 0 { NoCells(sw.passes(g)); }
    p, l := Row(cells, k), Col(cells, k);
    RowCol(cells, k);
    RowBound(cells, sw.passes(g), k);
  }

  lemma {:induction false} NoCells(i: nat)
    ensures RowAt(0, i) == 0
  {
    if i > 0 { NoCells(i - 1); }
  }

  lemma OperationFrame(sw: Sweep, t: nat, g: nat, k: nat, m: Memory)
    requires Proper(sw) && t < |sw.rows| && k < WorkOf(sw, t, g) && |m| == sw.size
    ensures |Operation(sw, t, g, k, m)| == sw.size && Frame(KernelOf(sw), g, t, m, Operation(sw, t, g, k, m))
  {
    var p, l := OperationAt(sw, t, g, k);
    OperationIs(sw, t, g, p, l, m);
    assert Touches(sw, g, RowAt(sw.n, sw.rows[t].0) + l, m, Operation(sw, t, g, k, m));
  }

  lemma OperationAgrees(sw: Sweep, t: nat, g: nat, k: nat, m1: Memory, m2: Memory)
    requires Proper(sw) && t < |sw.rows| && k < WorkOf(sw, t, g) && |m1| == |m2| == sw.size
    requires Agree(KernelOf(sw), g, t, m1, m2)
    ensures Agree(KernelOf(sw), g, t, Operation(sw, t, g, k, m1), Operation(sw, t, g, k, m2))
  {
    var p, l := OperationAt(sw, t, g, k);
    var c := RowAt(sw.n, sw.rows[t].0) + l;
    OperationIs(sw, t, g, p, l, m1);
    OperationIs(sw, t, g, p, l, m2);
    assert Alike(sw, g, c, m1, m2);
    var m1', m2' := sw.update(g, p, c, m1), sw.update(g, p, c, m2);
    assert SameAt(sw, c, m1', m2') && Touches(sw, g, c, m1, m1') && Touches(sw, g, c, m2, m2');
  }

  lemma KernelSound(sw: Sweep, m0: Memory)
    requires Proper(sw) && |m0| == sw.size
    ensures Sound(KernelOf(sw), m0)
  {
    var k := KernelOf(sw);
    forall g: nat, t: nat, l: nat, m: Memory ensures Keeps(k, g, t, l, m) {
      if t < k.Threads() && l < k.work(t, g) && k.inv(g, m) { OperationFrame(sw, t, g, l, m); }
    }
    forall g: nat, t: nat, l: nat, m1: Memory, m2: Memory ensures Local(k, g, t, l, m1, m2) {
      if t < k.Threads() && l < k.work(t, g) && k.inv(g, m1) && k.inv(g, m2) && Agree(k, g, t, m1, m2) {
        OperationAgrees(sw, t, g, l, m1, m2);
      }
    }
  }

  /** What thread t alone has made of m when it is at cell c of pass p. */
  ghost predicate SweptTo(sw: Sweep, g: nat, t: nat, p: nat, c: nat, m: Memory, m': Memory)
    requires sw.n > 0
  {
    && |m'| == |m| == sw.size
    && forall a: nat | a < |m| ::
         m'[a] == if OwnerOf(sw, g, a) == Some(t) then sw.after(g, if sw.cellOf(a) < c then p + 1 else p, a, m)
                  else m[a]
  }

  lemma SweptNext(sw: Sweep, g: nat, t: nat, p: nat, c: nat, m: Memory, m': Memory)
    requires Proper(sw) && p < sw.passes(g) && c < RowAt(sw.n, sw.n) && Owner(sw.rows, Row(sw.n, c)) == Some(t)
    requires SweptTo(sw, g, t, p, c, m, m')
    ensures SweptTo(sw, g, t, p, c + 1, m, sw.update(g, p, c, m'))
  {
    var m'' := sw.update(g, p, c, m');
    assert Touches(sw, g, c, m', m'');
    assert Reached(sw, g, p, c, m, m');
    assert Updated(sw, g, p + 1, c, m, m'');
  }

  /** A pass that has reached the end of the thread's rows is where the next pass begins. */
  lemma PassEnds(sw: Sweep, g: nat, t: nat, p: nat, m: Memory, m': Memory)
    requires WellFormed(sw) && t < |sw.rows|
    requires SweptTo(sw, g, t, p, RowAt(sw.n, sw.rows[t].0) + OwnCells(sw.n, sw.rows, t), m, m')
    ensures SweptTo(sw, g, t, p + 1, RowAt(sw.n, sw.rows[t].0), m, m')
  {
    forall a: nat | a < |m| && OwnerOf(sw, g, a) == Some(t)
      ensures m'[a] == sw.after(g, p + 1, a, m) && sw.cellOf(a) >= RowAt(sw.n, sw.rows[t].0)
    {
      CellOwned(sw.n, sw.rows, sw.cellOf(a));
    }
  }

  lemma SweepBegins(sw: Sweep, g: nat, t: nat, m: Memory)
    requires Proper(sw) && t < |sw.rows| && |m| == sw.size
    ensures SweptTo(sw, g, t, 0, RowAt(sw.n, sw.rows[t].0), m, m)
  {
    forall a: nat | a < |m| && OwnerOf(sw, g, a) == Some(t) ensures sw.cellOf(a) >= RowAt(sw.n, sw.rows[t].0) {
      CellOwned(sw.n, sw.rows, sw.cellOf(a));
    }
  }

  lemma AloneNothing(sw: Sweep, g: nat, t: nat, m: Memory)
    ensures Alone(KernelOf(sw), g, t, 0, m) == m
  {
  }

  lemma AloneNext(sw: Sweep, g: nat, t: nat, p: nat, l: nat, m: Memory)
    requires WellFormed(sw) && t < |sw.rows| && l < OwnCells(sw.n, sw.rows, t) && p < sw.passes(g)
    ensures var cells, c, k := OwnCells(sw.n, sw.rows, t), RowAt(sw.n, sw.rows[t].0) + l, KernelOf(sw);
            && c < RowAt(sw.n, sw.n) && Owner(sw.rows, Row(sw.n, c)) == Some(t)
            && Alone(k, g, t, At(cells, p, l + 1), m) == sw.update(g, p, c, Alone(k, g, t, At(cells, p, l), m))
  {
    OperationIs(sw, t, g, p, l, Alone(KernelOf(sw), g, t, At(OwnCells(sw.n, sw.rows, t), p, l), m));
  }

  lemma {:induction false} AloneSweeps(sw: Sweep, g: nat, t: nat, p: nat, l: nat, m: Memory)
    requires Proper(sw) && t < |sw.rows| && |m| == sw.size && l <= OwnCells(sw.n, sw.rows, t)
    requires p < sw.passes(g) || (p == sw.passes(g) && l == 0)
    ensures SweptTo(sw, g, t, p, RowAt(sw.n, sw.rows[t].0) + l, m,
                    Alone(KernelOf(sw), g, t, At(OwnCells(sw.n, sw.rows, t), p, l), m))
    decreases p, l
  {
    hide SweptTo, Proper, KernelOf, Alone;
    ProperWellFormed(sw);
    var first, cells := RowAt(sw.n, sw.rows[t].0), OwnCells(sw.n, sw.rows, t);
    if l > 0 {
      AloneSweeps(sw, g, t, p, l - 1, m);
      AloneNext(sw, g, t, p, l - 1, m);
      SweptNext(sw, g, t, p, first + l - 1, m, Alone(KernelOf(sw), g, t, At(cells, p, l - 1), m));
    } else if p > 0 {
      AloneSweeps(sw, g, t, p - 1, cells, m);
      PassEnds(sw, g, t, p - 1, m, Alone(KernelOf(sw), g, t, At(cells, p - 1, cells), m));
    } else {
      SweepBegins(sw, g, t, m);
      AloneNothing(sw, g, t, m);
    }
  }

  ghost predicate SegmentDone(sw: Sweep, g: nat, m: Memory, m': Memory) {
    && |m'| == |m| == sw.size
    && forall a: nat | a < |m| :: m'[a] == if sw.written(g, a) then sw.after(g, sw.passes(g), a, m) else m[a]
  }

  /** A segment makes of every cell what `after` says, whoever owns it. */
  lemma SegmentOutcome(sw: Sweep, g: nat, m: Memory)
    requires Proper(sw) && |m| == sw.size
    ensures SegmentDone(sw, g, m, Outcome(KernelOf(sw), g, Full(KernelOf(sw), g), m))
  {
    var k := KernelOf(sw);
    forall a: nat | a < |m| && sw.written(g, a)
      ensures CellOutcome(k, g, Full(k, g), m, a) == sw.after(g, sw.passes(g), a, m)
    {
      CellOwned(sw.n, sw.rows, sw.cellOf(a));
      var t := Owner(sw.rows, Row(sw.n, sw.cellOf(a))).value;
      AloneSweeps(sw, g, t, sw.passes(g), 0, m);
    }
  }

  lemma {:induction false} StartSize(sw: Sweep, g: nat, m0: Memory)
    requires Proper(sw) && |m0| == sw.size
    ensures |Start(KernelOf(sw), g, m0)| == sw.size
  {
    if g > 0 { StartSize(sw, g - 1, m0); }
  }

  lemma StartStep(sw: Sweep, g: nat, m0: Memory)
    requires Proper(sw) && |m0| == sw.size
    ensures SegmentDone(sw, g, Start(KernelOf(sw), g, m0), Start(KernelOf(sw), g + 1, m0))
  {
    StartSize(sw, g, m0);
    SegmentOutcome(sw, g, Start(KernelOf(sw), g, m0));
  }

  /** In a state of segment g each address holds what some number of passes makes of the memory the segment
      started with. */
  lemma ValueIn(sw: Sweep, m0: Memory, s: State, g: nat, a: nat) returns (p: nat)
    requires Proper(sw) && |m0| == sw.size && Inv(KernelOf(sw), m0, s, g) && a < sw.size
    ensures p <= sw.passes(g) && |s.mem| == |Start(KernelOf(sw), g, m0)| == sw.size
    ensures s.mem[a] == sw.after(g, p, a, Start(KernelOf(sw), g, m0))
  {
    var k := KernelOf(sw);
    var m, done := Start(k, g, m0), Progress(k, s, g);
    StartSize(sw, g, m0);
    assert s.mem[a] == CellOutcome(k, g, done, m, a);
    p := 0;
    if sw.written(g, a) {
      CellOwned(sw.n, sw.rows, sw.cellOf(a));
      var t := Owner(sw.rows, Row(sw.n, sw.cellOf(a))).value;
      p := CellAlone(sw, g, t, done[t], m, a);
    }
  }

  /** So no interleaving produces other values. */
  lemma EveryValue(sw: Sweep, m0: Memory, run: seq<State>, i: nat, a: nat) returns (g: nat, p: nat)
    requires Proper(sw) && |m0| == sw.size && Run(KernelOf(sw), m0, run) && i < |run| && a < sw.size
    ensures g <= |sw.prog| && p <= sw.passes(g) && |run[i].mem| == |Start(KernelOf(sw), g, m0)| == sw.size
    ensures run[i].mem[a] == sw.after(g, p, a, Start(KernelOf(sw), g, m0))
  {
    KernelSound(sw, m0);
    g := Determined(KernelOf(sw), m0, run, i);
    p := ValueIn(sw, m0, run[i], g, a);
  }

  lemma CellAlone(sw: Sweep, g: nat, t: nat, k: nat, m: Memory, a: nat) returns (p: nat)
    requires Proper(sw) && t < |sw.rows| && |m| == sw.size && k <= WorkOf(sw, t, g) && a < |m|
    requires OwnerOf(sw, g, a) == Some(t)
    ensures p <= sw.passes(g) && |Alone(KernelOf(sw), g, t, k, m)| == |m|
    ensures Alone(KernelOf(sw), g, t, k, m)[a] == sw.after(g, p, a, m)
  {
    hide Proper, KernelOf, Alone;
    ProperWellFormed(sw);
    if k == WorkOf(sw, t, g) {
      p := sw.passes(g);
      AloneSweeps(sw, g, t, p, 0, m);
      CellOwned(sw.n, sw.rows, sw.cellOf(a));
    } else {
      var q, l := OperationAt(sw, t, g, k);
      AloneSweeps(sw, g, t, q, l, m);
      p := if sw.cellOf(a) < RowAt(sw.n, sw.rows[t].0) + l then q + 1 else q;
    }
  }

  /** Barriers 0, 1 and 2 in every iteration. */
  function ThreeCalls(iterations: nat): seq<nat> {
    seq(3 * iterations, i requires i >= 0 => i % 3)
  }

  /** The cell of address a when the memory holds three buffers of s cells each. */
  function CellOfThree(s: nat, a: nat): nat {
    if a < s then a else if a < 2 * s then a - s else if a < 3 * s then a - 2 * s else 0
  }
}
