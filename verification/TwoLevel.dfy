/** Two-level synchronization of the histogram kernel. Thread 0 is the first M3 task: it joins the global
    barriers 0 and 1 for its processor and the local barrier, numbered 2 here, with thread 1, the second M3
    task. Every other thread is a processor of its own that joins the global barriers alone. */
module TwoLevel {
  import opened Barrier
  import BarrierPairs
  import BarrierProgress
  import Grid

  const LOCAL: nat := 2

  function LeadCall(p: nat): nat { if p % 5 == 0 then 0 else if p % 5 == 3 then 1 else LOCAL }

  function SingleCall(p: nat): nat { p % 2 }

  function Program(iterations: nat, t: nat): seq<nat> {
    if t == 0 then seq(5 * iterations, (p: nat) => LeadCall(p))
    else if t == 1 then seq(3 * iterations, (p: nat) => LOCAL)
    else seq(2 * iterations, (p: nat) => SingleCall(p))
  }

  function TwoLevelConfig(iterations: nat, threads: nat): Config {
    Config(seq(threads, (t: nat) => Program(iterations, t)),
           [Grid.Upto(threads) - {1}, Grid.Upto(threads) - {1}, {0, 1}])
  }

  lemma ConfigWellFormed(iterations: nat, threads: nat)
    requires threads >= 2
    ensures WellFormed(TwoLevelConfig(iterations, threads))
  {
  }

  function LeadLocal(p: nat): nat { 3 * (p / 5) + if p % 5 <= 1 then 0 else if p % 5 == 2 then 1 else 2 }

  lemma {:induction false} LeadFirstCounts(iterations: nat, p: nat)
    requires p <= 5 * iterations
    ensures Count(Program(iterations, 0), 0, p) == (p + 4) / 5
  {
    if p > 0 { LeadFirstCounts(iterations, p - 1); }
  }

  lemma {:induction false} LeadSecondCounts(iterations: nat, p: nat)
    requires p <= 5 * iterations
    ensures Count(Program(iterations, 0), 1, p) == (p + 1) / 5
  {
    if p > 0 { LeadSecondCounts(iterations, p - 1); }
  }

  lemma {:induction false} LeadLocalCounts(iterations: nat, p: nat)
    requires p <= 5 * iterations
    ensures Count(Program(iterations, 0), LOCAL, p) == LeadLocal(p)
  {
    if p > 0 { LeadLocalCounts(iterations, p - 1); }
  }

  lemma {:induction false} HelperCounts(iterations: nat, p: nat)
    requires p <= 3 * iterations
    ensures Count(Program(iterations, 1), LOCAL, p) == p
  {
    if p > 0 { HelperCounts(iterations, p - 1); }
  }

  lemma {:induction false} SingleCounts(iterations: nat, t: nat, p: nat)
    requires p <= 2 * iterations && t >= 2
    ensures Count(Program(iterations, t), 0, p) == (p + 1) / 2
    ensures Count(Program(iterations, t), 1, p) == p / 2
  {
    if p > 0 { SingleCounts(iterations, t, p - 1); }
  }

  /** Nobody has left a round of b that another member has not arrived at. */
  lemma Ordered(c: Config, s: State, b: nat, t: nat, u: nat)
    requires WellFormed(c) && Inv(c, s) && b < |c.members| && t in c.members[b] && u in c.members[b]
    ensures Exits(c, s, t, b) <= Arrivals(c, s, u, b)
  {
    assert BarrierInv(c, s, b) && MemberInv(c, s, b, t) && MemberInv(c, s, b, u);
  }

  /** Iterations in which processor t (any thread but 1) has passed barrier 1, and barrier 0. */
  function PassedSecond(t: nat, p: nat): nat { if t == 0 then (p + 1) / 5 else p / 2 }

  function PassedFirst(t: nat, p: nat): nat { if t == 0 then (p + 4) / 5 else (p + 1) / 2 }

  lemma GlobalCounts(iterations: nat, t: nat, p: nat)
    requires t != 1 && p <= |Program(iterations, t)|
    ensures Count(Program(iterations, t), 0, p) == PassedFirst(t, p)
    ensures Count(Program(iterations, t), 1, p) == PassedSecond(t, p)
  {
    if t == 0 {
      LeadFirstCounts(iterations, p);
      LeadSecondCounts(iterations, p);
    } else {
      SingleCounts(iterations, t, p);
    }
  }

  /** Processors t and u are not further apart than the barriers let them be. */
  lemma Processors(iterations: nat, threads: nat, s: State, t: nat, u: nat)
    requires threads >= 2 && t < threads && u < threads && t != 1 && u != 1
    requires WellFormed(TwoLevelConfig(iterations, threads)) && Inv(TwoLevelConfig(iterations, threads), s)
    ensures PassedSecond(t, s.pos[t]) <= PassedSecond(u, Begun(TwoLevelConfig(iterations, threads), s, u))
    ensures PassedFirst(t, s.pos[t]) <= PassedFirst(u, Begun(TwoLevelConfig(iterations, threads), s, u))
  {
    var c := TwoLevelConfig(iterations, threads);
    Ordered(c, s, 0, t, u);
    Ordered(c, s, 1, t, u);
    GlobalCounts(iterations, t, s.pos[t]);
    GlobalCounts(iterations, u, Begun(c, s, u));
  }

  /** The two M3 tasks keep in step through the local barrier. */
  lemma Tasks(iterations: nat, threads: nat, s: State)
    requires threads >= 2
    requires WellFormed(TwoLevelConfig(iterations, threads)) && Inv(TwoLevelConfig(iterations, threads), s)
    ensures LeadLocal(s.pos[0]) <= Begun(TwoLevelConfig(iterations, threads), s, 1)
    ensures s.pos[1] <= LeadLocal(Begun(TwoLevelConfig(iterations, threads), s, 0))
  {
    var c := TwoLevelConfig(iterations, threads);
    Ordered(c, s, LOCAL, 0, 1);
    Ordered(c, s, LOCAL, 1, 0);
    LeadLocalCounts(iterations, s.pos[0]);
    LeadLocalCounts(iterations, Begun(c, s, 0));
    HelperCounts(iterations, s.pos[1]);
    HelperCounts(iterations, Begun(c, s, 1));
  }

  /** Between its call of barrier 1 and its next call of barrier 0. */
  predicate InSecondPart(t: nat, p: nat) {
    if t == 0 then p % 5 == 4 || (p > 0 && p % 5 == 0) else p % 2 == 0 && p > 0
  }

  lemma SecondPart(t: nat, p: nat)
    requires t != 1 && InSecondPart(t, p)
    ensures PassedSecond(t, p) == PassedFirst(t, p) > 0
  {
  }

  lemma LeadPast(m: nat, p: nat, b: nat)
    requires m > 0 && p <= b <= p + 1 && (p + 4) / 5 <= m <= (b + 1) / 5
    ensures 5 * m - 2 <= p <= 5 * m && b >= 5 * m - 1
  {
  }

  lemma SinglePast(m: nat, p: nat, b: nat)
    requires m > 0 && p <= b <= p + 1 && (p + 1) / 2 <= m <= b / 2
    ensures 2 * m - 1 <= p <= 2 * m && b >= 2 * m
  {
  }

  /** While t is there, processor u has at least arrived at barrier 1 for the same iteration, and has not
      passed barrier 0 for the next. */
  lemma ProcessorPast(iterations: nat, threads: nat, s: State, t: nat, u: nat)
    requires threads >= 2 && t < threads && u < threads && t != 1 && u != 1
    requires WellFormed(TwoLevelConfig(iterations, threads)) && Inv(TwoLevelConfig(iterations, threads), s)
    requires s.target[t].None? && PassedSecond(t, s.pos[t]) == PassedFirst(t, s.pos[t]) > 0
    ensures var m := PassedSecond(t, s.pos[t]);
            if u == 0 then
              5 * m - 2 <= s.pos[u] <= 5 * m && (s.pos[u] == 5 * m - 2 ==> s.target[u].Some?)
            else
              2 * m - 1 <= s.pos[u] <= 2 * m && (s.pos[u] == 2 * m - 1 ==> s.target[u].Some?)
  {
    var b := Begun(TwoLevelConfig(iterations, threads), s, u);
    Processors(iterations, threads, s, t, u);
    Processors(iterations, threads, s, u, t);
    if u == 0 {
      LeadPast(PassedSecond(t, s.pos[t]), s.pos[u], b);
    } else {
      SinglePast(PassedSecond(t, s.pos[t]), s.pos[u], b);
    }
  }

  lemma LocalPast(m: nat, p0: nat, b0: nat, p1: nat, b1: nat)
    requires m > 0 && 5 * m - 2 <= p0 <= 5 * m && p0 <= b0 <= p0 + 1 && p1 <= b1 <= p1 + 1
    requires LeadLocal(p0) <= b1 && p1 <= LeadLocal(b0)
    ensures 3 * m - 2 <= p1 <= 3 * m && (p1 == 3 * m - 2 ==> b1 == p1 + 1)
  {
  }

  /** While t is there, thread 1 has at least arrived at its second local call of the same iteration, and has
      not passed its first of the next. */
  lemma HelperPast(iterations: nat, threads: nat, s: State, t: nat)
    requires threads >= 2 && t < threads && t != 1
    requires WellFormed(TwoLevelConfig(iterations, threads)) && Inv(TwoLevelConfig(iterations, threads), s)
    requires s.target[t].None? && PassedSecond(t, s.pos[t]) == PassedFirst(t, s.pos[t]) > 0
    ensures var m := PassedSecond(t, s.pos[t]);
            3 * m - 2 <= s.pos[1] <= 3 * m && (s.pos[1] == 3 * m - 2 ==> s.target[1].Some?)
  {
    var c := TwoLevelConfig(iterations, threads);
    ProcessorPast(iterations, threads, s, t, 0);
    Tasks(iterations, threads, s);
    LocalPast(PassedSecond(t, s.pos[t]), s.pos[0], Begun(c, s, 0), s.pos[1], Begun(c, s, 1));
  }

  lemma LeadAtPaint(q: nat, p0: nat, b0: nat)
    requires q > 0 && p0 <= b0 <= p0 + 1 && LeadLocal(p0) <= 3 * q <= LeadLocal(b0)
    ensures 5 * q - 1 <= p0 <= 5 * q + 1 && b0 >= 5 * q
  {
  }

  /** Between an iteration's last local call and the next one's first, thread 1 finds thread 0 past its own
      mapping and before its next counting. */
  lemma LeadMapped(iterations: nat, threads: nat, s: State)
    requires threads >= 2
    requires WellFormed(TwoLevelConfig(iterations, threads)) && Inv(TwoLevelConfig(iterations, threads), s)
    requires s.target[1].None? && s.pos[1] % 3 == 0 && s.pos[1] > 0
    ensures var q := s.pos[1] / 3;
            5 * q - 1 <= s.pos[0] <= 5 * q + 1 && (s.pos[0] == 5 * q - 1 ==> s.target[0].Some?)
  {
    Tasks(iterations, threads, s);
    LeadAtPaint(s.pos[1] / 3, s.pos[0], Begun(TwoLevelConfig(iterations, threads), s, 0));
  }

  /** All threads but 1 begin with the same global calls. */
  lemma CommonStart(iterations: nat, threads: nat)
    requires threads >= 2 && iterations > 0
    ensures BarrierProgress.Common(TwoLevelConfig(iterations, threads), [0], 1)
  {
    var c := TwoLevelConfig(iterations, threads);
    ConfigWellFormed(iterations, threads);
    hide WellFormed;
    forall t | 0 <= t < threads && t != 1 ensures [0] <= c.prog[t] {
      assert c.prog[t] == Program(iterations, t);
    }
    assert forall b | 0 <= b <= 0 :: c.members[b] == Grid.Upto(threads) - {1};
  }

  /** The local barrier is called back to back, so the configuration can deadlock unless nothing is called. */
  lemma DeadlockFreeIff(iterations: nat, threads: nat)
    requires threads >= 2
    ensures var c := TwoLevelConfig(iterations, threads);
            WellFormed(c) && (BarrierProgress.DeadlockFree(c) <==> iterations == 0)
  {
    var c := TwoLevelConfig(iterations, threads);
    ConfigWellFormed(iterations, threads);
    if iterations > 0 {
      hide BarrierProgress.Common, WellFormed, BarrierProgress.DeadlockFree;
      CommonStart(iterations, threads);
      BarrierPairs.PairDeadlock(c, [0], LOCAL);
    }
  }
}
