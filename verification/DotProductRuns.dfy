/** The dot product on all its threads, in every interleaving of their operations and barrier steps; an
    addition to the shared result, made under a lock, is one operation. */
module DotProductRuns {
  import opened Wrappers
  import opened Grid
  import opened DotProduct
  import opened DotProductOrder
  import Barrier

  datatype Kernel = Kernel(size: nat, slices: Rows, iterations: nat)

  /** done[t]: operations of thread t since its last barrier call; sums[t]: its local sum. */
  datatype State = State(bar: Barrier.State, done: seq<nat>, sums: seq<nat>, mem0: nat, mem1: nat, result: nat)

  ghost function Config(k: Kernel): Barrier.Config { DotConfig(k.iterations, |k.slices|) }

  ghost predicate WellFormed(k: Kernel) {
    |k.slices| >= 2 && Partition(k.size, k.slices) && Barrier.WellFormed(Config(k))
  }

  ghost predicate Shape(k: Kernel, s: State) {
    WellFormed(k) && Barrier.Shape(Config(k), s.bar) && |s.done| == |s.sums| == |k.slices|
  }

  /** What thread t does between two barrier calls. */
  datatype Job = Rest | Clear | Multiply | Add

  function JobOf(t: nat, p: nat): Job {
    if t == 0 then (match p % 5 case 1 => Clear case 3 => Multiply case 4 => Add case _ => Rest)
    else if t == 1 then (if p % 2 == 1 then Multiply else Rest)
    else match p % 3 case 1 => Clear case 2 => Multiply case _ => Rest
  }

  function Length(k: Kernel, t: nat): nat
    requires t < |k.slices|
  {
    if k.slices[t].1 < k.slices[t].0 then 0 else k.slices[t].1 - k.slices[t].0
  }

  /** Thread 0 also clears the two tasks' sums; Multiply starts its sum, adds each element and hands it on. */
  function Ops(k: Kernel, t: nat, job: Job): nat
    requires t < |k.slices|
  {
    match job
    case Rest => 0
    case Clear => if t == 0 then 3 else 1
    case Multiply => Length(k, t) + 2
    case Add => 1
  }

  ghost function Doing(k: Kernel, s: State, t: nat): Job
    requires Shape(k, s) && t < |k.slices|
  {
    JobOf(t, s.bar.pos[t])
  }

  /** The state after operation n of thread t's job; done is left to the caller. */
  ghost function Worked(k: Kernel, s: State, t: nat, job: Job, n: nat): State
    requires Shape(k, s) && t < |k.slices|
  {
    match job
    case Rest => s
    case Clear =>
      if t == 0 && n == 0 then s.(mem1 := 0) else if t == 0 && n == 1 then s.(mem0 := 0) else s.(result := 0)
    case Add => s.(result := Wrap(s.result + (s.mem0 + s.mem1)))
    case Multiply =>
      if n == 0 then s.(sums := s.sums[t := 0])
      else if n <= Length(k, t) then
        var i := k.slices[t].0 + (n - 1);
        s.(sums := s.sums[t := Accumulate(s.sums[t], i, i)])
      else if t == 0 then s.(mem0 := s.sums[t])
      else if t == 1 then s.(mem1 := s.sums[t])
      else s.(result := Wrap(s.result + s.sums[t]))
  }

  ghost predicate CanWork(k: Kernel, s: State, t: nat)
    requires Shape(k, s)
  {
    t < |k.slices| && s.bar.target[t].None? && s.done[t] < Ops(k, t, Doing(k, s, t))
  }

  ghost predicate Work(k: Kernel, s: State, s': State, t: nat)
    requires Shape(k, s)
  {
    && CanWork(k, s, t)
    && s' == Worked(k, s, t, Doing(k, s, t), s.done[t]).(done := s.done[t := s.done[t] + 1])
  }

  ghost predicate Arrive(k: Kernel, s: State, s': State, t: nat)
    requires Shape(k, s)
  {
    && Barrier.CanArrive(Config(k), s.bar, t) && s.done[t] == Ops(k, t, Doing(k, s, t))
    && s' == s.(bar := Barrier.Arrive(Config(k), s.bar, t))
  }

  ghost predicate Leave(k: Kernel, s: State, s': State, t: nat)
    requires Shape(k, s)
  {
    && Barrier.CanLeave(Config(k), s.bar, t)
    && s' == s.(bar := Barrier.Leave(Config(k), s.bar, t), done := s.done[t := 0])
  }

  ghost predicate StepOf(k: Kernel, s: State, s': State, t: nat)
    requires Shape(k, s)
  {
    Work(k, s, s', t) || Arrive(k, s, s', t) || Leave(k, s, s', t)
  }

  ghost predicate Init(k: Kernel, s: State) {
    Shape(k, s) && s.bar == Barrier.Init(Config(k)) && forall t: nat | t < |k.slices| :: s.done[t] == 0
  }

  ghost predicate Next(k: Kernel, s: State, s': State)
    requires Shape(k, s)
  {
    exists t: nat :: StepOf(k, s, s', t)
  }

  ghost predicate Run(k: Kernel, run: seq<State>) {
    && run != [] && Init(k, run[0])
    && (forall i | 0 <= i < |run| :: Shape(k, run[i]))
    && forall i | 0 <= i < |run| - 1 :: Next(k, run[i], run[i + 1])
  }

  /** Iterations in which processor t has cleared the result, and has added to it. */
  function Cleared(t: nat, p: nat, n: nat): nat {
    Passed(t, 1, p) + if JobOf(t, p) == Clear && n == (if t == 0 then 3 else 1) then 1 else 0
  }

  function Added(k: Kernel, t: nat, p: nat, n: nat): nat
    requires t < |k.slices|
  {
    Passed(t, 2, p)
    + if (JobOf(t, p) == Add && n == 1) || (t > 1 && JobOf(t, p) == Multiply && n == Length(k, t) + 2) then 1 else 0
  }

  /** Thread t's product in 32 bits. */
  ghost function Own(k: Kernel, t: nat): nat
    requires t < |k.slices|
  {
    Wrap(Product(k.slices[t].0, k.slices[t].1))
  }

  /** What processor t adds in each iteration. */
  ghost function Contribution(k: Kernel, t: nat): nat
    requires |k.slices| >= 2 && t < |k.slices|
  {
    if t == 0 then Own(k, 0) + Own(k, 1) else if t == 1 then 0 else Own(k, t)
  }

  ghost function ContributionIn(k: Kernel, s: State, g: nat, t: nat): nat
    requires Shape(k, s) && t < |k.slices|
  {
    if t != 1 && Added(k, t, s.bar.pos[t], s.done[t]) == g then Contribution(k, t) else 0
  }

  /** What has been added in iteration g so far. */
  ghost function Contributed(k: Kernel, s: State, g: nat): seq<nat>
    requires Shape(k, s)
  {
    seq(|k.slices|, t requires 0 <= t < |k.slices| => ContributionIn(k, s, g, t))
  }

  ghost predicate ThreadInv(k: Kernel, s: State, t: nat)
    requires Shape(k, s) && t < |k.slices|
  {
    && s.done[t] <= Ops(k, t, Doing(k, s, t))
    && (s.bar.target[t].Some? ==> s.done[t] == Ops(k, t, Doing(k, s, t)))
    && (Doing(k, s, t) == Multiply && s.done[t] > 0 ==>
          s.sums[t] == Wrap(Product(k.slices[t].0, k.slices[t].0 + Multiplied(k, t, s.done[t]))))
  }

  /** Elements multiplied after n operations. */
  function Multiplied(k: Kernel, t: nat, n: nat): nat
    requires t < |k.slices|
  {
    if n == 0 then 0 else if n - 1 <= Length(k, t) then n - 1 else Length(k, t)
  }

  /** Products thread 1 has handed to thread 0. */
  function Handed(k: Kernel, p: nat, n: nat): nat
    requires |k.slices| >= 2
  {
    p / 2 + if p % 2 == 1 && n == Length(k, 1) + 2 then 1 else 0
  }

  /** The two tasks' products, once there, stay until thread 0 has added them. */
  ghost predicate MemInv(k: Kernel, s: State)
    requires Shape(k, s)
  {
    var p := s.bar.pos[0];
    && (Handed(k, s.bar.pos[1], s.done[1]) == p / 5 + 1 ==> s.mem1 == Own(k, 1))
    && (p % 5 == 4 || (p % 5 == 3 && s.done[0] == Length(k, 0) + 2) ==> s.mem0 == Own(k, 0))
  }

  ghost predicate SomeCleared(k: Kernel, s: State, g: nat)
    requires Shape(k, s)
  {
    exists t: nat :: t < |k.slices| && t != 1 && Cleared(t, s.bar.pos[t], s.done[t]) == g
  }

  /** Between barriers 0 and 1 the result is 0 once a processor has cleared it; from barrier 1 on it is the
      sum of what has been added in this iteration. */
  ghost predicate ResultInv(k: Kernel, s: State)
    requires Shape(k, s)
  {
    var g := s.bar.round[1];
    && (s.bar.round[0] == g && g > 0 ==> s.result == Wrap(Sum(Contributed(k, s, g))))
    && (s.bar.round[0] == g + 1 && SomeCleared(k, s, g + 1) ==> s.result == 0)
  }

  ghost predicate Inv(k: Kernel, s: State) {
    && Shape(k, s) && Barrier.Inv(Config(k), s.bar)
    && (forall t: nat | t < |k.slices| :: ThreadInv(k, s, t))
    && MemInv(k, s) && ResultInv(k, s)
  }

  lemma {:induction false} WrapSum(a: seq<nat>, b: seq<nat>)
    requires |a| == |b| && forall i | 0 <= i < |a| :: a[i] == Wrap(b[i])
    ensures Wrap(Sum(a)) == Wrap(Sum(b))
  {
    var n := |a| - 1;
    if n >= 0 {
      WrapSum(a[..n], b[..n]);
      WrapAdds(Sum(a[..n]), a[n]);
      WrapAdds(b[n], Sum(b[..n]));
      WrapAdds(Sum(b[..n]), a[n]);
    }
  }

  ghost function Contributions(k: Kernel): seq<nat>
    requires |k.slices| >= 2
  {
    seq(|k.slices|, t requires 0 <= t < |k.slices| => Contribution(k, t))
  }

  ghost function OwnProducts(k: Kernel): seq<nat> {
    seq(|k.slices|, t requires 0 <= t < |k.slices| => Own(k, t))
  }

  /** All contributions make the whole dot product. */
  lemma ContributionsMakeWhole(k: Kernel)
    requires |k.slices| >= 2 && Partition(k.size, k.slices)
    ensures Wrap(Sum(Contributions(k))) == Wrap(Product(0, k.size))
  {
    ProductsMakeWhole(k.size, k.slices);
    var own := OwnProducts(k);
    WrapSum(own, Products(k.slices));
    SumUpdate(own, 0, own[0] + own[1]);
    SumUpdate(own[0 := own[0] + own[1]], 1, 0);
    assert Contributions(k) == own[0 := own[0] + own[1]][1 := 0];
  }

  lemma ClearTurn(t: nat, p: nat)
    requires t != 1 && JobOf(t, p) == Clear
    ensures Passed(t, 0, p) == Passed(t, 1, p) + 1
  {
  }

  lemma AddTurn(t: nat, p: nat)
    requires JobOf(t, p) == Add || (t > 1 && JobOf(t, p) == Multiply)
    ensures Passed(t, 0, p) == Passed(t, 1, p) == Passed(t, 2, p) + 1
  {
  }

  lemma CountBounds(k: Kernel, t: nat, p: nat, n: nat)
    requires t < |k.slices| && t != 1
    ensures Cleared(t, p, n) <= Passed(t, 0, p) && Added(k, t, p, n) <= Passed(t, 1, p)
  {
  }

  /** Nothing is counted at a barrier call. */
  lemma LeadCountsAtCall(k: Kernel, p: nat)
    requires |k.slices| > 0
    ensures Cleared(0, p + 1, 0) == Cleared(0, p, Ops(k, 0, JobOf(0, p)))
    ensures Added(k, 0, p + 1, 0) == Added(k, 0, p, Ops(k, 0, JobOf(0, p)))
  {
    NextCall(p);
  }

  lemma SingleCountsAtCall(k: Kernel, t: nat, p: nat)
    requires 1 < t < |k.slices|
    ensures Cleared(t, p + 1, 0) == Cleared(t, p, Ops(k, t, JobOf(t, p)))
    ensures Added(k, t, p + 1, 0) == Added(k, t, p, Ops(k, t, JobOf(t, p)))
  {
    assert p % 3 == 2 ==> (p + 1) / 3 == p / 3 + 1 && (p + 1) % 3 == 0;
    assert p % 3 < 2 ==> (p + 1) / 3 == p / 3 && (p + 1) % 3 == p % 3 + 1;
  }

  lemma NextCall(p: nat)
    ensures p % 5 == 4 ==> (p + 1) / 5 == p / 5 + 1 && (p + 1) % 5 == 0
    ensures p % 5 < 4 ==> (p + 1) / 5 == p / 5 && (p + 1) % 5 == p % 5 + 1
  {
  }

  lemma HandedAtCall(k: Kernel, p: nat)
    requires |k.slices| >= 2
    ensures Handed(k, p + 1, 0) == Handed(k, p, Ops(k, 1, JobOf(1, p)))
  {
  }

  lemma MultiplyStep(k: Kernel, t: nat, n: nat, sum: nat)
    requires t < |k.slices| && 0 < n <= Length(k, t)
    requires sum == Wrap(Product(k.slices[t].0, k.slices[t].0 + Multiplied(k, t, n)))
    ensures Accumulate(sum, k.slices[t].0 + (n - 1), k.slices[t].0 + (n - 1))
         == Wrap(Product(k.slices[t].0, k.slices[t].0 + Multiplied(k, t, n + 1)))
  {
    AccumulateNext(k.slices[t].0, k.slices[t].0 + (n - 1));
  }

  lemma WorkThread(k: Kernel, s: State, s': State, t: nat)
    requires Shape(k, s) && Work(k, s, s', t) && ThreadInv(k, s, t)
    ensures Shape(k, s') && ThreadInv(k, s', t)
  {
    var n := s.done[t];
    if Doing(k, s, t) == Multiply && 0 < n <= Length(k, t) { MultiplyStep(k, t, n, s.sums[t]); }
  }

  /** A thread that has multiplied all its elements holds its product. */
  lemma MultiplyDone(k: Kernel, s: State, t: nat)
    requires Shape(k, s) && t < |k.slices| && ThreadInv(k, s, t)
    requires Doing(k, s, t) == Multiply && s.done[t] > Length(k, t)
    ensures s.sums[t] == Own(k, t)
  {
  }

  lemma WorkThreads(k: Kernel, s: State, s': State, t: nat)
    requires Inv(k, s) && Work(k, s, s', t)
    ensures Shape(k, s') && forall u: nat | u < |k.slices| :: ThreadInv(k, s', u)
  {
    forall u: nat | u < |k.slices| ensures Shape(k, s') && ThreadInv(k, s', u) {
      assert ThreadInv(k, s, u);
      if u == t { WorkThread(k, s, s', t); }
    }
  }

  /** Thread 1 has handed on nothing for the iteration thread 0 is clearing for. */
  lemma NotHandedYet(k: Kernel, s: State)
    requires Shape(k, s) && Barrier.Inv(Config(k), s.bar) && s.bar.target[0].None? && s.bar.pos[0] % 5 == 1
    ensures Handed(k, s.bar.pos[1], s.done[1]) < s.bar.pos[0] / 5 + 1
  {
    Tasks(k.iterations, |k.slices|, s.bar);
  }

  lemma WorkMem(k: Kernel, s: State, s': State, t: nat)
    requires Inv(k, s) && Work(k, s, s', t) && Shape(k, s')
    ensures MemInv(k, s')
  {
    assert ThreadInv(k, s, t);
    if t == 0 && s.bar.pos[0] % 5 == 1 {
      NotHandedYet(k, s);
    } else if Doing(k, s, t) == Multiply && s.done[t] > Length(k, t) {
      MultiplyDone(k, s, t);
    }
  }

  /** When thread 0 adds, thread 1's product is there. */
  lemma HandedForAdd(k: Kernel, s: State)
    requires Inv(k, s) && s.bar.target[0].None? && s.bar.pos[0] % 5 == 4
    ensures s.mem0 == Own(k, 0) && s.mem1 == Own(k, 1)
  {
    Tasks(k.iterations, |k.slices|, s.bar);
    assert ThreadInv(k, s, 1);
    HandedNumbers(k, s.bar.pos[0], s.bar.pos[1], s.done[1], s.bar.target[1].Some?);
  }

  lemma HandedNumbers(k: Kernel, p0: nat, p1: nat, n: nat, calling: bool)
    requires |k.slices| >= 2 && p0 % 5 == 4 && p1 <= LeadLocal(p0) <= p1 + if calling then 1 else 0
    requires calling ==> n == Ops(k, 1, JobOf(1, p1))
    ensures Handed(k, p1, n) == p0 / 5 + 1
  {
  }

  lemma ClearResult(k: Kernel, s: State, s': State, t: nat)
    requires Inv(k, s) && Work(k, s, s', t) && Shape(k, s') && t != 1 && Doing(k, s, t) == Clear && s'.result == 0
    ensures ResultInv(k, s')
  {
    RoundOf(k.iterations, |k.slices|, s.bar, t, 0);
    RoundOf(k.iterations, |k.slices|, s.bar, t, 1);
    ClearTurn(t, s.bar.pos[t]);
  }

  /** The counts and the result are as they were. */
  lemma QuietResult(k: Kernel, s: State, s': State)
    requires Shape(k, s) && Shape(k, s') && ResultInv(k, s) && s'.result == s.result
    requires s'.bar.round[0] == s.bar.round[0] && s'.bar.round[1] == s.bar.round[1]
    requires forall u: nat | u < |k.slices| && u != 1 ::
               && Added(k, u, s'.bar.pos[u], s'.done[u]) == Added(k, u, s.bar.pos[u], s.done[u])
               && Cleared(u, s'.bar.pos[u], s'.done[u]) == Cleared(u, s.bar.pos[u], s.done[u])
    ensures ResultInv(k, s')
  {
    var g := s.bar.round[1];
    assert Contributed(k, s', g) == Contributed(k, s, g);
    assert SomeCleared(k, s', g + 1) ==> SomeCleared(k, s, g + 1);
  }

  /** Thread t is about to add to the result. */
  ghost predicate AboutToAdd(k: Kernel, s: State, t: nat)
    requires Shape(k, s)
  {
    && CanWork(k, s, t)
    && (Doing(k, s, t) == Add || (t > 1 && Doing(k, s, t) == Multiply && s.done[t] == Length(k, t) + 1))
  }

  /** Additions are made when no processor may clear, once by each processor in an iteration. */
  lemma AddRound(k: Kernel, s: State, t: nat)
    requires Shape(k, s) && Barrier.Inv(Config(k), s.bar) && AboutToAdd(k, s, t)
    ensures t != 1 && s.bar.round[0] == s.bar.round[1] > 0
    ensures Added(k, t, s.bar.pos[t], s.done[t]) + 1 == s.bar.round[1]
    ensures Added(k, t, s.bar.pos[t], s.done[t] + 1) == s.bar.round[1]
    ensures Cleared(t, s.bar.pos[t], s.done[t] + 1) == Cleared(t, s.bar.pos[t], s.done[t])
  {
    RoundOf(k.iterations, |k.slices|, s.bar, t, 0);
    RoundOf(k.iterations, |k.slices|, s.bar, t, 1);
    RoundsAreClose(k.iterations, |k.slices|, s.bar);
    AddTurn(t, s.bar.pos[t]);
  }

  lemma ContributedGrows(k: Kernel, s: State, s': State, t: nat, g: nat)
    requires Shape(k, s) && Shape(k, s') && t < |k.slices| && t != 1
    requires s'.bar == s.bar && s'.done == s.done[t := s.done[t] + 1]
    requires Added(k, t, s.bar.pos[t], s.done[t]) + 1 == Added(k, t, s.bar.pos[t], s.done[t] + 1) == g
    ensures Sum(Contributed(k, s', g)) == Sum(Contributed(k, s, g)) + Contribution(k, t)
  {
    var before := Contributed(k, s, g);
    assert Contributed(k, s', g) == before[t := Contribution(k, t)];
    SumUpdate(before, t, Contribution(k, t));
  }

  lemma AddResult(k: Kernel, s: State, s': State, t: nat)
    requires Shape(k, s) && Barrier.Inv(Config(k), s.bar) && ResultInv(k, s) && AboutToAdd(k, s, t)
    requires Shape(k, s') && s'.bar == s.bar && s'.done == s.done[t := s.done[t] + 1]
    requires s'.result == Wrap(s.result + Contribution(k, t))
    ensures ResultInv(k, s')
  {
    AddRound(k, s, t);
    var g := s.bar.round[1];
    ContributedGrows(k, s, s', t, g);
    WrapAdds(Sum(Contributed(k, s, g)), Contribution(k, t));
  }

  lemma WorkResult(k: Kernel, s: State, s': State, t: nat)
    requires Inv(k, s) && Work(k, s, s', t) && Shape(k, s')
    ensures ResultInv(k, s')
  {
    var n := s.done[t];
    if AboutToAdd(k, s, t) {
      AddWork(k, s, s', t);
    } else if Doing(k, s, t) == Clear && n + 1 == Ops(k, t, Clear) {
      ClearResult(k, s, s', t);
    } else {
      QuietResult(k, s, s');
    }
  }

  lemma AddWork(k: Kernel, s: State, s': State, t: nat)
    requires Inv(k, s) && Work(k, s, s', t) && Shape(k, s') && AboutToAdd(k, s, t)
    ensures ResultInv(k, s')
  {
    AddRound(k, s, t);
    if Doing(k, s, t) == Add {
      HandedForAdd(k, s);
    } else {
      assert ThreadInv(k, s, t);
      MultiplyDone(k, s, t);
    }
    AddResult(k, s, s', t);
  }

  lemma WorkInv(k: Kernel, s: State, s': State, t: nat)
    requires Inv(k, s) && Work(k, s, s', t)
    ensures Inv(k, s')
  {
    WorkThreads(k, s, s', t);
    WorkMem(k, s, s', t);
    WorkResult(k, s, s', t);
  }

  /** When the last processor arrives at barrier 0, clearing begins; nobody has cleared for it yet. */
  lemma ClearingBegins(k: Kernel, s: State, s': State, t: nat)
    requires Inv(k, s) && Arrive(k, s, s', t) && Barrier.Inv(Config(k), s'.bar)
    requires s'.bar.round[0] == s.bar.round[0] + 1 && s'.bar.round[1] == s.bar.round[1]
    ensures ResultInv(k, s')
  {
    RoundsAreClose(k.iterations, |k.slices|, s.bar);
    RoundsAreClose(k.iterations, |k.slices|, s'.bar);
    forall u: nat | u < |k.slices| && u != 1 ensures Cleared(u, s'.bar.pos[u], s'.done[u]) < s'.bar.round[0] {
      RoundOf(k.iterations, |k.slices|, s.bar, u, 0);
      CountBounds(k, u, s.bar.pos[u], s.done[u]);
    }
  }

  /** When the last processor arrives at barrier 1, the result is 0 and nobody has added yet. */
  lemma AddingBegins(k: Kernel, s: State, s': State, t: nat)
    requires Inv(k, s) && Arrive(k, s, s', t) && Barrier.Inv(Config(k), s'.bar) && t != 1
    requires s'.bar.round[0] == s.bar.round[0] && s'.bar.round[1] == s.bar.round[1] + 1
    requires Passed(t, 1, s.bar.pos[t] + 1) == Passed(t, 1, s.bar.pos[t]) + 1
    ensures ResultInv(k, s')
  {
    var g := s'.bar.round[1];
    RoundsAreClose(k.iterations, |k.slices|, s.bar);
    RoundsAreClose(k.iterations, |k.slices|, s'.bar);
    RoundOf(k.iterations, |k.slices|, s.bar, t, 1);
    ArrivesCleared(k, t, s.bar.pos[t]);
    assert Cleared(t, s.bar.pos[t], s.done[t]) == g && SomeCleared(k, s, g);
    var added := Contributed(k, s', g);
    forall u: nat | u < |k.slices| ensures added[u] == 0 {
      if u != 1 {
        RoundOf(k.iterations, |k.slices|, s.bar, u, 1);
        CountBounds(k, u, s.bar.pos[u], s.done[u]);
      }
    }
    SumZero(added);
  }

  lemma ArrivesCleared(k: Kernel, t: nat, p: nat)
    requires t < |k.slices| && t != 1 && Passed(t, 1, p + 1) == Passed(t, 1, p) + 1
    ensures Cleared(t, p, Ops(k, t, JobOf(t, p))) == Passed(t, 1, p) + 1
  {
  }

  /** The barrier whose words an arrival changes. */
  lemma CallIs(k: Kernel, s: State, t: nat)
    requires Shape(k, s) && Barrier.CanArrive(Config(k), s.bar, t)
    ensures var b := Config(k).prog[t][s.bar.pos[t]];
            && (b == 0 || b == 1 ==> t != 1)
            && (b == 1 ==> Passed(t, 1, s.bar.pos[t] + 1) == Passed(t, 1, s.bar.pos[t]) + 1)
  {
    hide LeadCall, SingleCall, Passed;
    var p := s.bar.pos[t];
    assert Config(k).prog[t][p] == if t == 0 then LeadCall(p) else if t == 1 then LOCAL else SingleCall(p);
    SecondPassed(t, p);
  }

  lemma SecondPassed(t: nat, p: nat)
    ensures t == 0 && LeadCall(p) == 1 ==> Passed(t, 1, p + 1) == Passed(t, 1, p) + 1
    ensures t != 0 && SingleCall(p) == 1 ==> Passed(t, 1, p + 1) == Passed(t, 1, p) + 1
  {
  }

  lemma ArriveResult(k: Kernel, s: State, s': State, t: nat)
    requires Inv(k, s) && Arrive(k, s, s', t) && Barrier.Inv(Config(k), s'.bar)
    ensures ResultInv(k, s')
  {
    CallIs(k, s, t);
    if s'.bar.round[0] != s.bar.round[0] {
      ClearingBegins(k, s, s', t);
    } else if s'.bar.round[1] != s.bar.round[1] {
      AddingBegins(k, s, s', t);
    } else {
      QuietResult(k, s, s');
    }
  }

  lemma ArriveThreads(k: Kernel, s: State, s': State, t: nat)
    requires Shape(k, s) && Arrive(k, s, s', t) && forall u: nat | u < |k.slices| :: ThreadInv(k, s, u)
    ensures Shape(k, s') && forall u: nat | u < |k.slices| :: ThreadInv(k, s', u)
    ensures MemInv(k, s) ==> MemInv(k, s')
  {
    forall u: nat | u < |k.slices| ensures ThreadInv(k, s', u) { assert ThreadInv(k, s, u); }
  }

  lemma ArriveInv(k: Kernel, s: State, s': State, t: nat)
    requires Inv(k, s) && Arrive(k, s, s', t)
    ensures Inv(k, s')
  {
    Barrier.ArriveInv(Config(k), s.bar, t);
    ArriveResult(k, s, s', t);
    ArriveThreads(k, s, s', t);
  }

  lemma LeaveShape(k: Kernel, s: State, s': State, t: nat)
    requires Shape(k, s) && Leave(k, s, s', t)
    ensures Shape(k, s')
  {
  }

  lemma LeaveThread(k: Kernel, s: State, s': State, t: nat, u: nat)
    requires Shape(k, s) && Leave(k, s, s', t) && u < |k.slices| && ThreadInv(k, s, u)
    ensures Shape(k, s') && ThreadInv(k, s', u)
  {
    hide Product, Wrap, Multiplied;
  }

  lemma LeaveThreads(k: Kernel, s: State, s': State, t: nat)
    requires Inv(k, s) && Leave(k, s, s', t)
    ensures Shape(k, s') && forall u: nat | u < |k.slices| :: ThreadInv(k, s', u)
  {
    hide Shape, Leave, ThreadInv, MemInv, ResultInv;
    LeaveShape(k, s, s', t);
    forall u: nat | u < |k.slices| ensures ThreadInv(k, s', u) {
      assert ThreadInv(k, s, u);
      LeaveThread(k, s, s', t, u);
    }
  }

  lemma LeaveMem(k: Kernel, s: State, s': State, t: nat)
    requires Inv(k, s) && Leave(k, s, s', t) && Shape(k, s')
    ensures MemInv(k, s')
  {
    if t == 0 {
      LeadLeaveMem(k, s, s');
    } else if t == 1 {
      assert ThreadInv(k, s, t);
      HandedAtCall(k, s.bar.pos[1]);
    }
  }

  lemma LeadLeaveMem(k: Kernel, s: State, s': State)
    requires Inv(k, s) && Leave(k, s, s', 0) && Shape(k, s')
    ensures MemInv(k, s')
  {
    var p := s.bar.pos[0];
    assert ThreadInv(k, s, 0);
    if p % 5 == 4 {
      Tasks(k.iterations, |k.slices|, s.bar);
      NotHandedAhead(k, p, s.bar.pos[1], s.done[1]);
    }
    NextCall(p);
  }

  lemma NotHandedAhead(k: Kernel, p0: nat, p1: nat, n: nat)
    requires |k.slices| >= 2 && p1 <= LeadLocal(p0 + 1) && p0 % 5 == 4
    ensures Handed(k, p1, n) <= p0 / 5 + 1
  {
  }

  lemma LeaveResult(k: Kernel, s: State, s': State, t: nat)
    requires Inv(k, s) && Leave(k, s, s', t) && Shape(k, s')
    ensures ResultInv(k, s')
  {
    assert ThreadInv(k, s, t);
    if t == 0 { LeadCountsAtCall(k, s.bar.pos[t]); } else if t > 1 { SingleCountsAtCall(k, t, s.bar.pos[t]); }
    QuietResult(k, s, s');
  }

  lemma LeaveInv(k: Kernel, s: State, s': State, t: nat)
    requires Inv(k, s) && Leave(k, s, s', t)
    ensures Inv(k, s')
  {
    Barrier.LeaveInv(Config(k), s.bar, t);
    LeaveThreads(k, s, s', t);
    LeaveMem(k, s, s', t);
    LeaveResult(k, s, s', t);
  }

  lemma StepInv(k: Kernel, s: State, s': State, t: nat)
    requires Inv(k, s) && StepOf(k, s, s', t)
    ensures Inv(k, s')
  {
    if Work(k, s, s', t) {
      WorkInv(k, s, s', t);
    } else if Arrive(k, s, s', t) {
      ArriveInv(k, s, s', t);
    } else {
      LeaveInv(k, s, s', t);
    }
  }

  lemma InitInv(k: Kernel, s: State)
    requires Init(k, s)
    ensures Inv(k, s)
  {
    Barrier.InitInv(Config(k));
    forall t: nat | t < |k.slices| ensures ThreadInv(k, s, t) { assert s.bar.pos[t] == 0; }
    forall u: nat | u < |k.slices| && u != 1 ensures Cleared(u, s.bar.pos[u], s.done[u]) == 0 {
      assert s.bar.pos[u] == 0;
    }
  }

  lemma {:induction false} RunInv(k: Kernel, run: seq<State>, i: nat)
    requires Run(k, run) && i < |run|
    ensures Inv(k, run[i])
  {
    if i == 0 {
      InitInv(k, run[0]);
    } else {
      RunInv(k, run, i - 1);
      assert Next(k, run[i - 1], run[i - 1 + 1]);
      var t: nat :| StepOf(k, run[i - 1], run[i], t);
      StepInv(k, run[i - 1], run[i], t);
    }
  }

  /** When round m of barrier 2 is over and round m + 1 of barrier 0 is not, every processor has added. */
  lemma AllAdded(k: Kernel, s: State, m: nat, u: nat)
    requires Inv(k, s) && s.bar.round[2] >= m && s.bar.round[0] <= m && u < |k.slices| && u != 1
    ensures Added(k, u, s.bar.pos[u], s.done[u]) == m
  {
    assert ThreadInv(k, s, u);
    RoundOf(k.iterations, |k.slices|, s.bar, u, 2);
    RoundOf(k.iterations, |k.slices|, s.bar, u, 1);
    RoundOf(k.iterations, |k.slices|, s.bar, u, 0);
    RoundsAreClose(k.iterations, |k.slices|, s.bar);
    CountBounds(k, u, s.bar.pos[u], s.done[u]);
    AddedBySecond(k, u, s.bar.pos[u], s.done[u], s.bar.target[u].Some?);
  }

  lemma AddedBySecond(k: Kernel, u: nat, p: nat, n: nat, calling: bool)
    requires u < |k.slices| && u != 1 && (calling ==> n == Ops(k, u, JobOf(u, p)))
    ensures Added(k, u, p, n) >= Passed(u, 2, p + if calling then 1 else 0)
  {
  }

  lemma AllContributed(k: Kernel, s: State, m: nat)
    requires Inv(k, s) && s.bar.round[2] >= m && s.bar.round[0] <= m
    ensures Contributed(k, s, m) == Contributions(k)
  {
    var added, all := Contributed(k, s, m), Contributions(k);
    forall v: nat | v < |k.slices| ensures added[v] == all[v] { if v != 1 { AllAdded(k, s, m, v); } }
  }

  lemma ResultIsWhole(k: Kernel, run: seq<State>, i: nat, m: nat, t: nat, u: nat)
    requires Run(k, run) && i < |run| && m > 0
    requires t < |k.slices| && t != 1 && Passed(t, 2, run[i].bar.pos[t]) >= m
    requires u < |k.slices| && u != 1 && Passed(u, 0, Barrier.Begun(Config(k), run[i].bar, u)) <= m
    ensures run[i].result == Wrap(Product(0, k.size))
  {
    var s := run[i];
    RunInv(k, run, i);
    RoundOf(k.iterations, |k.slices|, s.bar, t, 2);
    RoundOf(k.iterations, |k.slices|, s.bar, u, 0);
    RoundsAreClose(k.iterations, |k.slices|, s.bar);
    AllContributed(k, s, m);
    ContributionsMakeWhole(k);
  }

  lemma SixTimes(p: nat, q: int)
    requires 6 * p == q
    ensures p == q / 6
  {
  }

  /** In every run, from the moment a processor t has passed barrier 2 for the m-th time, as long as some
      processor u has not reached its next barrier 0, the result is the whole dot product of 0, 1, .., n - 1 with
      itself modulo 2^32, whatever the order of the additions. */
  lemma ResultIsProduct(k: Kernel, run: seq<State>, i: nat, m: nat, t: nat, u: nat)
    requires Run(k, run) && i < |run| && m > 0
    requires t < |k.slices| && t != 1 && Passed(t, 2, run[i].bar.pos[t]) >= m
    requires u < |k.slices| && u != 1 && Passed(u, 0, Barrier.Begun(Config(k), run[i].bar, u)) <= m
    ensures run[i].result == k.size * (k.size - 1) * (2 * k.size - 1) / 6 % 0x1_0000_0000
  {
    hide Run, Passed, Product;
    ResultIsWhole(k, run, i, m, t, u);
    ProductClosed(k.size);
    SixTimes(Product(0, k.size), k.size * (k.size - 1) * (2 * k.size - 1));
  }
}
