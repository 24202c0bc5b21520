/** Kernels that work on shared memory between barrier calls.

    Thread t performs work(t, g) operations in segment g, the code between its barrier calls g - 1 and g,
    and operations of different threads interleave freely with each other and with the steps of the
    barriers. In segment g a cell has at most one owner; a kernel is Sound when a thread changes only its
    own cells and depends only on its own cells and on those nobody owns. */
module Phases {
  import opened Wrappers
  import Barrier
  import BarrierProgress

  type Memory = seq<int>

  datatype Kernel = Kernel(
    config: Barrier.Config,
    prog: seq<nat>,
    work: (nat, nat) -> nat,
    op: (nat, nat, nat, Memory) -> Memory,
    owner: (nat, nat) -> Option<nat>,
    inv: (nat, Memory) -> bool)
  {
    ghost function Threads(): nat { |config.prog| }
  }

  datatype State = State(bar: Barrier.State, done: seq<nat>, mem: Memory)

  ghost predicate Shape(k: Kernel, s: State) {
    BarrierProgress.Uniform(k.config, k.prog) && Barrier.Shape(k.config, s.bar) && |s.done| == k.Threads()
  }

  ghost predicate Work(k: Kernel, s: State, s': State, t: nat)
    requires Shape(k, s)
  {
    && t < k.Threads() && s.bar.target[t].None? && s.done[t] < k.work(t, s.bar.pos[t])
    && s' == State(s.bar, s.done[t := s.done[t] + 1], k.op(t, s.bar.pos[t], s.done[t], s.mem))
  }

  ghost predicate Arrive(k: Kernel, s: State, s': State, t: nat)
    requires Shape(k, s)
  {
    && Barrier.CanArrive(k.config, s.bar, t) && s.done[t] == k.work(t, s.bar.pos[t])
    && s' == s.(bar := Barrier.Arrive(k.config, s.bar, t))
  }

  ghost predicate Leave(k: Kernel, s: State, s': State, t: nat)
    requires Shape(k, s)
  {
    && Barrier.CanLeave(k.config, s.bar, t)
    && s' == s.(bar := Barrier.Leave(k.config, s.bar, t), done := s.done[t := 0])
  }

  ghost predicate StepOf(k: Kernel, s: State, s': State, t: nat)
    requires Shape(k, s)
  {
    Work(k, s, s', t) || Arrive(k, s, s', t) || Leave(k, s, s', t)
  }

  ghost predicate Next(k: Kernel, s: State, s': State)
    requires Shape(k, s)
  {
    exists t: nat :: StepOf(k, s, s', t)
  }

  ghost predicate Run(k: Kernel, m0: Memory, run: seq<State>) {
    && BarrierProgress.Uniform(k.config, k.prog)
    && |run| > 0 && run[0] == State(Barrier.Init(k.config), seq(k.Threads(), t => 0), m0)
    && (forall i | 0 <= i < |run| :: Shape(k, run[i]))
    && (forall i | 0 <= i < |run| - 1 :: Next(k, run[i], run[i + 1]))
  }

  /** m after the first n operations of thread t in segment g, alone. */
  function Alone(k: Kernel, g: nat, t: nat, n: nat, m: Memory): Memory {
    if n == 0 then m else k.op(t, g, n - 1, Alone(k, g, t, n - 1, m))
  }

  /** Every cell as its owner, running alone for done[owner] operations, leaves it. */
  ghost function Outcome(k: Kernel, g: nat, done: seq<nat>, m: Memory): Memory {
    seq(|m|, c requires 0 <= c < |m| => CellOutcome(k, g, done, m, c))
  }

  ghost function CellOutcome(k: Kernel, g: nat, done: seq<nat>, m: Memory, c: nat): int
    requires c < |m|
  {
    match k.owner(g, c)
    case None => m[c]
    case Some(t) =>
      var m' := Alone(k, g, t, if t < |done| then done[t] else 0, m);
      if c < |m'| then m'[c] else m[c]
  }

  ghost function Full(k: Kernel, g: nat): seq<nat> {
    seq(k.Threads(), t requires 0 <= t < k.Threads() => k.work(t, g))
  }

  /** The memory at the start of segment g. */
  ghost function Start(k: Kernel, g: nat, m0: Memory): Memory {
    if g == 0 then m0 else Outcome(k, g - 1, Full(k, g - 1), Start(k, g - 1, m0))
  }

  lemma FirstStart(k: Kernel, m0: Memory)
    ensures Start(k, 0, m0) == m0
  {
  }

  /** m1 and m2 look the same to thread t in segment g. */
  ghost predicate Agree(k: Kernel, g: nat, t: nat, m1: Memory, m2: Memory) {
    |m1| == |m2| && forall c: nat | c < |m1| && (k.owner(g, c) == None || k.owner(g, c) == Some(t)) :: m1[c] == m2[c]
  }

  ghost predicate Frame(k: Kernel, g: nat, t: nat, m: Memory, m': Memory) {
    |m'| == |m| && forall c: nat | c < |m| && k.owner(g, c) != Some(t) :: m'[c] == m[c]
  }

  /** Operation n of thread t keeps the invariant and changes the thread's own cells only. */
  ghost predicate Keeps(k: Kernel, g: nat, t: nat, n: nat, m: Memory) {
    t < k.Threads() && n < k.work(t, g) && k.inv(g, m) ==>
      k.inv(g, k.op(t, g, n, m)) && Frame(k, g, t, m, k.op(t, g, n, m))
  }

  /** What it does to the cells thread t may look at depends on those cells only. */
  ghost predicate Local(k: Kernel, g: nat, t: nat, n: nat, m1: Memory, m2: Memory) {
    t < k.Threads() && n < k.work(t, g) && k.inv(g, m1) && k.inv(g, m2) && Agree(k, g, t, m1, m2) ==>
      Agree(k, g, t, k.op(t, g, n, m1), k.op(t, g, n, m2))
  }

  ghost predicate Continues(k: Kernel, g: nat, m: Memory) {
    k.inv(g, m) ==> k.inv(g + 1, Outcome(k, g, Full(k, g), m))
  }

  ghost predicate Sound(k: Kernel, m0: Memory) {
    && k.inv(0, m0)
    && (forall g: nat, t: nat, n: nat, m: Memory :: Keeps(k, g, t, n, m))
    && (forall g: nat, t: nat, n: nat, m1: Memory, m2: Memory :: Local(k, g, t, n, m1, m2))
    && (forall g: nat, m: Memory :: Continues(k, g, m))
  }

  lemma {:induction false} AloneKeeps(k: Kernel, m0: Memory, g: nat, t: nat, n: nat, m: Memory)
    requires Sound(k, m0) && t < k.Threads() && n <= k.work(t, g) && k.inv(g, m)
    ensures k.inv(g, Alone(k, g, t, n, m)) && Frame(k, g, t, m, Alone(k, g, t, n, m))
  {
    if n > 0 {
      AloneKeeps(k, m0, g, t, n - 1, m);
      assert Keeps(k, g, t, n - 1, Alone(k, g, t, n - 1, m));
    }
  }

  /** Everybody has begun call g - 1, nobody has returned from call g. */
  ghost predicate InSegment(k: Kernel, s: State, g: nat)
    requires Shape(k, s)
  {
    && g <= |k.prog|
    && forall t | 0 <= t < k.Threads() ::
         s.bar.pos[t] == g || (s.bar.pos[t] + 1 == g && s.bar.target[t].Some?)
  }

  /** Operations of segment g performed so far. */
  ghost function Progress(k: Kernel, s: State, g: nat): seq<nat>
    requires Shape(k, s)
  {
    seq(k.Threads(), t requires 0 <= t < k.Threads() => if s.bar.pos[t] == g then s.done[t] else 0)
  }

  ghost predicate Inv(k: Kernel, m0: Memory, s: State, g: nat) {
    && Shape(k, s) && Barrier.Inv(k.config, s.bar) && InSegment(k, s, g)
    && (forall t | 0 <= t < k.Threads() :: s.done[t] <= k.work(t, s.bar.pos[t]))
    && (forall t | 0 <= t < k.Threads() && s.bar.target[t].Some? :: s.done[t] == k.work(t, s.bar.pos[t]))
    && k.inv(g, Start(k, g, m0)) && k.inv(g, s.mem)
    && s.mem == Outcome(k, g, Progress(k, s, g), Start(k, g, m0))
  }

  /** An operation moves its owner's cells one operation on and nothing else. */
  lemma WorkInv(k: Kernel, m0: Memory, s: State, s': State, t: nat, g: nat)
    requires Sound(k, m0) && Inv(k, m0, s, g) && Work(k, s, s', t)
    ensures Inv(k, m0, s', g)
  {
    var m, n := Start(k, g, m0), s.done[t];
    var alone := Alone(k, g, t, n, m);
    assert Progress(k, s', g) == Progress(k, s, g)[t := n + 1];
    AloneKeeps(k, m0, g, t, n, m);
    forall c: nat | c < |m| && (k.owner(g, c) == None || k.owner(g, c) == Some(t))
      ensures s.mem[c] == alone[c] {}
    assert Keeps(k, g, t, n, s.mem) && Local(k, g, t, n, s.mem, alone);
    assert Frame(k, g, t, s.mem, s'.mem) && Alone(k, g, t, n + 1, m) == k.op(t, g, n, alone);
    forall c: nat | c < |m| ensures s'.mem[c] == CellOutcome(k, g, Progress(k, s', g), m, c) {
      assert s.mem[c] == CellOutcome(k, g, Progress(k, s, g), m, c);
    }
  }

  lemma LeaveInv(k: Kernel, m0: Memory, s: State, s': State, t: nat, g: nat)
    requires Sound(k, m0) && Inv(k, m0, s, g) && Leave(k, s, s', t)
    ensures Inv(k, m0, s', if s.bar.pos[t] == g then g + 1 else g)
  {
    Barrier.LeaveInv(k.config, s.bar, t);
    if s.bar.pos[t] == g {
      forall u: nat | u < k.Threads()
        ensures u == t || (s.bar.pos[u] == g && s.bar.target[u].Some?)
      {
        BarrierProgress.Together(k.config, k.prog, s'.bar, t, u);
      }
      assert Progress(k, s, g) == Full(k, g);
      assert Continues(k, g, Start(k, g, m0));
      assert s.mem == Start(k, g + 1, m0);
      assert s'.mem == Outcome(k, g + 1, Progress(k, s', g + 1), Start(k, g + 1, m0));
    } else {
      assert Progress(k, s', g) == Progress(k, s, g);
    }
  }

  lemma StepInv(k: Kernel, m0: Memory, s: State, s': State, t: nat, g: nat) returns (g': nat)
    requires Sound(k, m0) && Inv(k, m0, s, g) && StepOf(k, s, s', t)
    ensures Inv(k, m0, s', g')
  {
    g' := g;
    if Work(k, s, s', t) {
      WorkInv(k, m0, s, s', t, g);
    } else if Arrive(k, s, s', t) {
      Barrier.ArriveInv(k.config, s.bar, t);
      assert Progress(k, s', g) == Progress(k, s, g);
    } else {
      LeaveInv(k, m0, s, s', t, g);
      if s.bar.pos[t] == g { g' := g + 1; }
    }
  }

  /** In every state of every run all threads are in one segment, and every cell holds what its owner
      alone would have made of the segment's starting memory: the interleaving cannot be seen. */
  lemma {:induction false} Determined(k: Kernel, m0: Memory, run: seq<State>, i: nat) returns (g: nat)
    requires Sound(k, m0) && Run(k, m0, run) && i < |run|
    ensures Inv(k, m0, run[i], g)
  {
    if i == 0 {
      g := 0;
      Barrier.InitInv(k.config);
      assert run[0].mem == Outcome(k, 0, Progress(k, run[0], 0), Start(k, 0, m0));
    } else {
      var g0 := Determined(k, m0, run, i - 1);
      assert Next(k, run[i - 1], run[i - 1 + 1]);
      var t: nat :| StepOf(k, run[i - 1], run[i], t);
      g := StepInv(k, m0, run[i - 1], run[i], t, g0);
    }
  }

  ghost predicate Finished(k: Kernel, s: State)
    requires Shape(k, s)
  {
    forall t | 0 <= t < k.Threads() :: s.bar.pos[t] == |k.prog| && s.done[t] == k.work(t, |k.prog|)
  }

  /** A run that gets all threads to their end leaves the same memory as every other one. */
  lemma FinalMemory(k: Kernel, m0: Memory, run: seq<State>)
    requires Sound(k, m0) && Run(k, m0, run) && Finished(k, run[|run| - 1])
    ensures run[|run| - 1].mem == Start(k, |k.prog| + 1, m0)
  {
    var s := run[|run| - 1];
    var g := Determined(k, m0, run, |run| - 1);
    assert s.bar.pos[0] == |k.prog|;
    assert Progress(k, s, g) == Full(k, g);
  }

  lemma WorkOrBarrier(k: Kernel, m0: Memory, s: State, g: nat) returns (s': State)
    requires Inv(k, m0, s, g) && BarrierProgress.NeighboursDiffer(k.prog) && !Finished(k, s)
    ensures Next(k, s, s')
  {
    if t: nat :| t < k.Threads() && s.bar.target[t].None? && s.done[t] < k.work(t, s.bar.pos[t]) {
      s' := State(s.bar, s.done[t := s.done[t] + 1], k.op(t, s.bar.pos[t], s.done[t], s.mem));
      assert StepOf(k, s, s', t);
    } else {
      s' := BarrierStep(k, m0, s, g);
    }
  }

  lemma BarrierStep(k: Kernel, m0: Memory, s: State, g: nat) returns (s': State)
    requires Inv(k, m0, s, g) && BarrierProgress.NeighboursDiffer(k.prog) && !Finished(k, s)
    requires forall t | 0 <= t < k.Threads() :: s.done[t] == k.work(t, s.bar.pos[t])
    ensures Next(k, s, s')
  {
    BarrierProgress.NoDeadlock(k.config, k.prog, s.bar);
    if BarrierProgress.Finished(k.config, s.bar) {
      assert forall t | 0 <= t < k.Threads() :: s.bar.pos[t] == |k.prog|;
      assert false;
    }
    var t: nat :| Barrier.CanArrive(k.config, s.bar, t) || Barrier.CanLeave(k.config, s.bar, t);
    if Barrier.CanArrive(k.config, s.bar, t) {
      s' := s.(bar := Barrier.Arrive(k.config, s.bar, t));
      assert StepOf(k, s, s', t);
    } else {
      s' := s.(bar := Barrier.Leave(k.config, s.bar, t), done := s.done[t := 0]);
      assert StepOf(k, s, s', t);
    }
  }

  /** If neighbouring calls name different barriers, no run gets stuck before all threads end. */
  lemma NeverStuck(k: Kernel, m0: Memory, run: seq<State>) returns (s': State)
    requires Sound(k, m0) && Run(k, m0, run) && BarrierProgress.NeighboursDiffer(k.prog)
    requires !Finished(k, run[|run| - 1])
    ensures Next(k, run[|run| - 1], s')
  {
    var g := Determined(k, m0, run, |run| - 1);
    s' := WorkOrBarrier(k, m0, run[|run| - 1], g);
  }

  /** Steps thread t takes before segment g. */
  ghost function Before(k: Kernel, t: nat, g: nat): nat {
    if g == 0 then 0 else Before(k, t, g - 1) + k.work(t, g - 1) + 2
  }

  lemma {:induction false} BeforeMonotone(k: Kernel, t: nat, g: nat, h: nat)
    requires g <= h
    ensures Before(k, t, g) + k.work(t, g) <= Before(k, t, h) + k.work(t, h)
  {
    if g < h { BeforeMonotone(k, t, g, h - 1); }
  }

  ghost function TakenBy(k: Kernel, s: State): seq<nat>
    requires Shape(k, s)
  {
    seq(k.Threads(), t requires 0 <= t < k.Threads() => TakenOf(k, s, t))
  }

  ghost function TakenOf(k: Kernel, s: State, t: nat): nat
    requires Shape(k, s) && t < k.Threads()
  {
    Before(k, t, s.bar.pos[t]) + s.done[t] + if s.bar.target[t].Some? then 1 else 0
  }

  ghost function StepsOf(k: Kernel, t: nat): nat {
    Before(k, t, |k.prog|) + k.work(t, |k.prog|)
  }

  ghost function AllSteps(k: Kernel): seq<nat> {
    seq(k.Threads(), t requires 0 <= t < k.Threads() => StepsOf(k, t))
  }

  lemma TakenOfStep(k: Kernel, m0: Memory, s: State, s': State, t: nat, g: nat, u: nat)
    requires Inv(k, m0, s, g) && StepOf(k, s, s', t) && Shape(k, s') && u < k.Threads()
    ensures TakenOf(k, s', u) == TakenOf(k, s, u) + if u == t then 1 else 0
  {
    if Leave(k, s, s', t) && u == t {
      assert Before(k, t, s.bar.pos[t] + 1) == Before(k, t, s.bar.pos[t]) + k.work(t, s.bar.pos[t]) + 2;
    }
  }

  lemma TakenStep(k: Kernel, m0: Memory, s: State, s': State, t: nat, g: nat)
    requires Inv(k, m0, s, g) && StepOf(k, s, s', t) && Shape(k, s')
    ensures Sum(TakenBy(k, s')) == Sum(TakenBy(k, s)) + 1
  {
    var w := TakenBy(k, s);
    assert t < k.Threads();
    forall u: nat | u < k.Threads() { TakenOfStep(k, m0, s, s', t, g, u); }
    SumUpdate(w, t, w[t] + 1);
    assert TakenBy(k, s') == w[t := w[t] + 1];
  }

  lemma TakenBound(k: Kernel, m0: Memory, s: State, g: nat)
    requires Inv(k, m0, s, g)
    ensures Sum(TakenBy(k, s)) <= Sum(AllSteps(k))
  {
    forall t: nat | t < k.Threads() ensures TakenOf(k, s, t) <= StepsOf(k, t) {
      var p := s.bar.pos[t];
      BeforeMonotone(k, t, if s.bar.target[t].Some? then p + 1 else p, |k.prog|);
    }
    SumMonotone(TakenBy(k, s), AllSteps(k));
  }

  lemma NothingTaken(k: Kernel, m0: Memory, run: seq<State>)
    requires Run(k, m0, run)
    ensures Sum(TakenBy(k, run[0])) == 0
  {
    SumZero(TakenBy(k, run[0]));
  }

  /** Every run ends: no schedule takes more steps than the threads' programs have. */
  lemma {:induction false} RunLength(k: Kernel, m0: Memory, run: seq<State>)
    requires Sound(k, m0) && Run(k, m0, run)
    ensures |run| - 1 == Sum(TakenBy(k, run[|run| - 1])) <= Sum(AllSteps(k))
  {
    hide Sound, Sum, TakenBy, AllSteps, StepOf;
    var n := |run| - 1;
    var g := Determined(k, m0, run, n);
    TakenBound(k, m0, run[n], g);
    if n > 0 {
      RunLength(k, m0, run[..n]);
      var g0 := Determined(k, m0, run, n - 1);
      assert Next(k, run[n - 1], run[n - 1 + 1]);
      var t: nat :| StepOf(k, run[n - 1], run[n], t);
      TakenStep(k, m0, run[n - 1], run[n], t, g0);
    } else {
      NothingTaken(k, m0, run);
    }
  }
}
