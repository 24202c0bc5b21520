/** Progress of threads that all follow one sequence of barrier calls, as the DSP kernels do.

    A thread slow to leave a round of a barrier can miss its end when others re-enter that barrier: this
    cannot happen if neighbouring calls name different barriers, and it can happen otherwise. */
module BarrierProgress {
  import opened Wrappers
  import opened Barrier

  ghost predicate Uniform(c: Config, prog: seq<nat>) {
    && WellFormed(c) && |c.prog| > 0
    && (forall t | 0 <= t < |c.prog| :: c.prog[t] == prog)
    && (forall i | 0 <= i < |prog| :: prog[i] < |c.members|)
    && (forall b, t: nat | 0 <= b < |c.members| :: t in c.members[b] <==> t < |c.prog|)
  }

  ghost predicate NeighboursDiffer(prog: seq<nat>) {
    forall i | 0 <= i < |prog| - 1 :: prog[i] != prog[i + 1]
  }

  ghost predicate Finished(c: Config, s: State)
    requires Shape(c, s)
  {
    forall t | 0 <= t < |c.prog| :: s.pos[t] == |c.prog[t]|
  }

  ghost predicate CanStep(c: Config, s: State)
    requires WellFormed(c) && Shape(c, s)
  {
    exists t: nat :: CanArrive(c, s, t) || CanLeave(c, s, t)
  }

  ghost predicate DeadlockFree(c: Config)
    requires WellFormed(c)
  {
    forall run | Run(c, run) :: Finished(c, run[|run| - 1]) || CanStep(c, run[|run| - 1])
  }

  /** No thread has returned from a call that another has not begun. */
  lemma Together(c: Config, prog: seq<nat>, s: State, t: nat, u: nat)
    requires Uniform(c, prog) && Inv(c, s) && t < |c.prog| && u < |c.prog|
    ensures s.pos[t] <= Begun(c, s, u)
  {
    var n := Begun(c, s, u);
    if s.pos[t] > n {
      var b := prog[n];
      assert BarrierInv(c, s, b) && MemberInv(c, s, b, t) && MemberInv(c, s, b, u);
      CountMonotone(prog, b, n + 1, s.pos[t]);
    }
  }

  lemma EveryoneBegan(c: Config, prog: seq<nat>, s: State, t: nat)
    requires Uniform(c, prog) && Inv(c, s) && t < |c.prog| && s.target[t].Some?
    requires forall u | 0 <= u < |c.prog| :: Begun(c, s, u) > s.pos[t]
    ensures var b := prog[s.pos[t]]; s.round[b] == Count(prog, b, s.pos[t]) + 1
  {
    var b, p := prog[s.pos[t]], s.pos[t];
    assert BarrierInv(c, s, b) && MemberInv(c, s, b, t);
    var inside, members := Inside(c, s, b), c.members[b];
    forall u | u in members ensures s.round[b] == Count(prog, b, p) ==> u in inside {
      CountMonotone(prog, b, p + 1, Begun(c, s, u));
      assert MemberInv(c, s, b, u);
    }
    SubsetSize(inside, members);
  }

  /** A round every thread has begun is over, and its final counter value stays until thread t has left
      it, unless somebody is already in the next call and that call names the same barrier. */
  lemma OverStays(c: Config, prog: seq<nat>, s: State, t: nat)
    requires Uniform(c, prog) && Inv(c, s) && t < |c.prog| && s.target[t].Some?
    requires forall u | 0 <= u < |c.prog| :: Begun(c, s, u) > s.pos[t]
    requires forall u | 0 <= u < |c.prog| && u != t ::
               Begun(c, s, u) == s.pos[t] + 1 || prog[s.pos[t] + 1] != prog[s.pos[t]]
    ensures CanLeave(c, s, t)
  {
    var b, p := prog[s.pos[t]], s.pos[t];
    EveryoneBegan(c, prog, s, t);
    forall u | u in c.members[b] ensures Arrivals(c, s, u, b) <= Count(prog, b, p) + 1 {
      Together(c, prog, s, u, t);
      assert Count(prog, b, p + 1) == Count(prog, b, p) + 1;
      if Begun(c, s, u) == p + 2 {
        assert Count(prog, b, p + 2) == Count(prog, b, p + 1);
      }
    }
    assert Inside(c, s, b) == {};
    assert BarrierInv(c, s, b) && MemberInv(c, s, b, t);
  }

  lemma {:induction false} Slowest(c: Config, s: State, n: nat) returns (t: nat)
    requires Shape(c, s) && 0 < n <= |c.prog|
    ensures t < n && forall u | 0 <= u < n :: Begun(c, s, t) <= Begun(c, s, u)
  {
    t := n - 1;
    if n > 1 {
      var t' := Slowest(c, s, n - 1);
      if Begun(c, s, t') < Begun(c, s, t) { t := t'; }
    }
  }

  lemma NoDeadlock(c: Config, prog: seq<nat>, s: State)
    requires Uniform(c, prog) && Inv(c, s) && (|c.prog| == 1 || NeighboursDiffer(prog))
    ensures Finished(c, s) || CanStep(c, s)
  {
    if !Finished(c, s) {
      var t := Slowest(c, s, |c.prog|);
      if s.target[t].None? && s.pos[t] < |prog| {
        assert CanArrive(c, s, t);
      } else {
        var u :| 0 <= u < |c.prog| && s.pos[u] < |prog|;
        assert Begun(c, s, t) <= Begun(c, s, u);
        var v: nat := if s.target[t].Some? then t else u;
        OverStays(c, prog, s, v);
      }
    }
  }

  /** All threads but x begin with the calls in prog, of barriers sized for all of them; with x == |c.prog| there
      is no such x. */
  ghost predicate Common(c: Config, prog: seq<nat>, x: nat) {
    && WellFormed(c) && |c.prog| > 0
    && (forall t | 0 <= t < |c.prog| && t != x :: prog <= c.prog[t])
    && (forall i | 0 <= i < |prog| :: prog[i] < |c.members|)
    && (forall i, t: nat | 0 <= i < |prog| :: t in c.members[prog[i]] <==> t < |c.prog| && t != x)
  }

  /** x has not moved, and all others are between calls r - 1 and r. */
  ghost predicate AllAt(c: Config, s: State, x: nat, r: nat)
    requires Shape(c, s)
  {
    forall t | 0 <= t < |c.prog| :: s.pos[t] == (if t == x then 0 else r) && s.target[t].None?
  }

  /** Of the others the first k threads have begun call r, the rest have not. */
  ghost predicate Arriving(c: Config, s: State, x: nat, r: nat, k: nat)
    requires Shape(c, s)
  {
    forall t | 0 <= t < |c.prog| ::
      if t == x then s.pos[t] == 0 && s.target[t].None? else s.pos[t] == r && (s.target[t].Some? <==> t < k)
  }

  /** Of the others the first k threads have returned from call r, the rest spin in it. */
  ghost predicate Leaving(c: Config, s: State, x: nat, r: nat, k: nat)
    requires Shape(c, s)
  {
    forall t | 0 <= t < |c.prog| ::
      if t == x then s.pos[t] == 0 && s.target[t].None?
      else if t < k then s.pos[t] == r + 1 && s.target[t].None?
      else s.pos[t] == r && s.target[t].Some?
  }

  lemma {:induction false} CountPrefix(p: seq<nat>, q: seq<nat>, b: nat, n: nat)
    requires p <= q && n <= |p|
    ensures Count(p, b, n) == Count(q, b, n)
  {
    if n > 0 { CountPrefix(p, q, b, n - 1); }
  }

  /** When all but x have begun call r and nobody call r + 1, whoever spins can leave. */
  lemma SpinnerLeaves(c: Config, prog: seq<nat>, x: nat, s: State, r: nat, k: nat)
    requires Common(c, prog, x) && Inv(c, s) && r < |prog| && k < |c.prog| && k != x && Leaving(c, s, x, r, k)
    ensures CanLeave(c, s, k)
  {
    var b := prog[r];
    var e := Count(prog, b, r);
    forall t | t in c.members[b] ensures Arrivals(c, s, t, b) == e + 1 && (t >= k ==> Exits(c, s, t, b) == e) {
      CountPrefix(prog, c.prog[t], b, r);
      CountPrefix(prog, c.prog[t], b, r + 1);
    }
    assert BarrierInv(c, s, b) && MemberInv(c, s, b, k);
    var inside, members := Inside(c, s, b), c.members[b];
    assert forall t | t in members :: t in inside <==> s.round[b] == e;
    SubsetSize(inside, members);
    assert inside == {};
  }

  ghost predicate Reachable(c: Config, s: State)
    requires WellFormed(c)
  {
    exists run :: Run(c, run) && run[|run| - 1] == s
  }

  lemma RunExtends(c: Config, run: seq<State>, s': State)
    requires WellFormed(c) && Run(c, run) && Shape(c, s') && Next(c, run[|run| - 1], s')
    ensures Run(c, run + [s'])
  {
    var run' := run + [s'];
    forall i | 0 <= i < |run'| - 1 ensures Next(c, run'[i], run'[i + 1]) {
      assert i < |run| - 1 ==> run'[i + 1] == run[i + 1];
    }
  }

  lemma Extend(c: Config, s: State, s': State, t: nat)
    requires WellFormed(c) && Inv(c, s) && Reachable(c, s) && StepOf(c, s, s', t)
    ensures Inv(c, s') && Reachable(c, s')
  {
    StepInv(c, s, s', t);
    var run :| Run(c, run) && run[|run| - 1] == s;
    assert Next(c, s, s');
    RunExtends(c, run, s');
    assert (run + [s'])[|run + [s']| - 1] == s';
  }

  lemma {:induction false} ArriveTogether(c: Config, prog: seq<nat>, x: nat, r: nat, k: nat) returns (s: State)
    requires Common(c, prog, x) && r < |prog| && k <= |c.prog|
    ensures Shape(c, s) && Reachable(c, s) && Inv(c, s) && Arriving(c, s, x, r, k)
    decreases r, 1, k
  {
    if k == 0 {
      s := AllReach(c, prog, x, r);
    } else {
      s := ArriveTogether(c, prog, x, r, k - 1);
      if k - 1 != x {
        var s0 := s;
        s := Arrive(c, s0, k - 1);
        Extend(c, s0, s, k - 1);
      }
    }
  }

  lemma {:induction false} LeaveTogether(c: Config, prog: seq<nat>, x: nat, r: nat, k: nat) returns (s: State)
    requires Common(c, prog, x) && r < |prog| && k <= |c.prog|
    ensures Shape(c, s) && Reachable(c, s) && Inv(c, s) && Leaving(c, s, x, r, k)
    decreases r, 2, k
  {
    if k == 0 {
      s := ArriveTogether(c, prog, x, r, |c.prog|);
    } else {
      s := LeaveTogether(c, prog, x, r, k - 1);
      if k - 1 != x {
        var s0 := s;
        SpinnerLeaves(c, prog, x, s0, r, k - 1);
        s := Leave(c, s0, k - 1);
        Extend(c, s0, s, k - 1);
      }
    }
  }

  /** Some run brings all threads but x together to any point of their common calls. */
  lemma {:induction false} AllReach(c: Config, prog: seq<nat>, x: nat, r: nat) returns (s: State)
    requires Common(c, prog, x) && r <= |prog|
    ensures Shape(c, s) && Reachable(c, s) && Inv(c, s) && AllAt(c, s, x, r)
    decreases r, 0
  {
    if r == 0 {
      s := Init(c);
      InitInv(c);
      assert Run(c, [s]) && [s][|[s]| - 1] == s;
    } else {
      s := LeaveTogether(c, prog, x, r - 1, |c.prog|);
    }
  }

  ghost predicate LostRound(c: Config, prog: seq<nat>, i: nat, s: State)
    requires Uniform(c, prog)
  {
    && |c.prog| > 1 && i < |prog| - 1 && prog[i] == prog[i + 1] && Inv(c, s)
    && forall t | 0 <= t < |c.prog| :: s.target[t].Some? && s.pos[t] == if t == 0 then i + 1 else i
  }

  lemma LostRoundInside(c: Config, prog: seq<nat>, i: nat, s: State)
    requires Uniform(c, prog) && LostRound(c, prog, i, s)
    ensures s.round[prog[i]] == Count(prog, prog[i], i) + 1 && Inside(c, s, prog[i]) == {0}
  {
    var b := prog[i];
    assert Count(prog, b, i + 1) == Count(prog, b, i) + 1;
    assert Count(prog, b, i + 2) == Count(prog, b, i + 1) + 1;
    forall t: nat | t < |c.prog|
      ensures Arrivals(c, s, t, b) == Count(prog, b, i) + if t == 0 then 2 else 1 {}
    assert BarrierInv(c, s, b) && MemberInv(c, s, b, 0) && MemberInv(c, s, b, 1);
  }

  lemma LostRoundWords(c: Config, prog: seq<nat>, i: nat, s: State)
    requires Uniform(c, prog) && LostRound(c, prog, i, s)
    ensures s.words[prog[i]] == Open(|c.members[prog[i]]|, Count(prog, prog[i], i) + 1, 1)
    ensures |c.members[prog[i]]| >= 2
  {
    LostRoundInside(c, prog, i, s);
    assert BarrierInv(c, s, prog[i]);
    SubsetSize({0, 1}, c.members[prog[i]]);
  }

  /** Thread 0 re-enters the barrier before the others saw the round end: nobody moves again. */
  lemma LostRoundIsStuck(c: Config, prog: seq<nat>, i: nat, s: State)
    requires Uniform(c, prog) && LostRound(c, prog, i, s)
    ensures !CanStep(c, s)
  {
    LostRoundWords(c, prog, i, s);
    forall t: nat | t < |c.prog| ensures !CanLeave(c, s, t) && !CanArrive(c, s, t) {
      assert BarrierInv(c, s, prog[i]) && MemberInv(c, s, prog[i], t);
    }
  }

  lemma Deadlock(c: Config, prog: seq<nat>, i: nat) returns (s: State)
    requires Uniform(c, prog) && |c.prog| > 1 && i < |prog| - 1 && prog[i] == prog[i + 1]
    ensures Shape(c, s) && Reachable(c, s) && !Finished(c, s) && !CanStep(c, s)
  {
    var s1 := LeaveTogether(c, prog, |c.prog|, i, 1);
    s := Arrive(c, s1, 0);
    Extend(c, s1, s, 0);
    LostRoundIsStuck(c, prog, i, s);
    assert s.pos[0] < |prog|;
  }

  /** Threads following one sequence of calls can get stuck exactly when there are at least two of them and
      some call names the barrier of the call before it. */
  lemma DeadlockFreeIff(c: Config, prog: seq<nat>)
    requires Uniform(c, prog)
    ensures DeadlockFree(c) <==> |c.prog| == 1 || NeighboursDiffer(prog)
  {
    if |c.prog| == 1 || NeighboursDiffer(prog) {
      forall run | Run(c, run)
        ensures Finished(c, run[|run| - 1]) || CanStep(c, run[|run| - 1])
      {
        RunInv(c, run, |run| - 1);
        NoDeadlock(c, prog, run[|run| - 1]);
      }
    } else {
      var i: nat :| i < |prog| - 1 && prog[i] == prog[i + 1];
      var s := Deadlock(c, prog, i);
      var run :| Run(c, run) && run[|run| - 1] == s;
    }
  }

  /** Steps taken so far: two for each call returned from, one for each call being spun in. */
  ghost function Taken(c: Config, s: State): nat
    requires Shape(c, s)
  {
    Sum(TakenBy(c, s))
  }

  ghost function TakenOf(c: Config, s: State, t: nat): nat
    requires Shape(c, s) && t < |c.prog|
  {
    s.pos[t] + Begun(c, s, t)
  }

  ghost function TakenBy(c: Config, s: State): seq<nat>
    requires Shape(c, s)
  {
    seq(|c.prog|, t requires 0 <= t < |c.prog| => TakenOf(c, s, t))
  }

  lemma TakenStep(c: Config, s: State, s': State, t: nat)
    requires WellFormed(c) && Inv(c, s) && StepOf(c, s, s', t) && Shape(c, s')
    ensures Taken(c, s') == Taken(c, s) + 1
  {
    var w := TakenBy(c, s);
    assert t < |c.prog|;
    SumUpdate(w, t, w[t] + 1);
    assert TakenBy(c, s') == w[t := w[t] + 1];
  }

  /** Every run is finite: it takes at most two steps for each call of each thread, so by NoDeadlock every
      run that cannot be continued has all threads through all their calls. */
  lemma {:induction false} RunLength(c: Config, prog: seq<nat>, run: seq<State>)
    requires Uniform(c, prog) && Run(c, run)
    ensures |run| - 1 == Taken(c, run[|run| - 1]) <= |c.prog| * (2 * |prog|)
  {
    var n := |run| - 1;
    RunInv(c, run, n);
    if n > 0 {
      RunLength(c, prog, run[..n]);
      RunInv(c, run, n - 1);
      assert Next(c, run[n - 1], run[n - 1 + 1]);
      var t: nat :| StepOf(c, run[n - 1], run[n], t);
      TakenStep(c, run[n - 1], run[n], t);
    } else {
      SumBound(TakenBy(c, run[0]), 0);
    }
    SumBound(TakenBy(c, run[n]), 2 * |prog|);
  }
}
