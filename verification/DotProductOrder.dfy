/** Barrier calls of the dot product: global barriers 0, 1 and 2 around clearing and adding up, and for the
    two M3 tasks, threads 0 and 1, the local barrier around their own share. */
module DotProductOrder {
  import opened Barrier
  import BarrierPairs
  import BarrierProgress
  import Grid

  const LOCAL: nat := 3

  function LeadCall(p: nat): nat {
    match p % 5 case 0 => 0 case 1 => 1 case 4 => 2 case _ => LOCAL
  }

  function SingleCall(p: nat): nat { p % 3 }

  function Program(iterations: nat, t: nat): seq<nat> {
    if t == 0 then seq(5 * iterations, (p: nat) => LeadCall(p))
    else if t == 1 then seq(2 * iterations, (p: nat) => LOCAL)
    else seq(3 * iterations, (p: nat) => SingleCall(p))
  }

  function DotConfig(iterations: nat, threads: nat): Config {
    Config(seq(threads, (t: nat) => Program(iterations, t)),
           [Grid.Upto(threads) - {1}, Grid.Upto(threads) - {1}, Grid.Upto(threads) - {1}, {0, 1}])
  }

  lemma ConfigWellFormed(iterations: nat, threads: nat)
    requires threads >= 2
    ensures WellFormed(DotConfig(iterations, threads))
  {
    var c := DotConfig(iterations, threads);
    forall t: nat, i: nat | t < threads && i < |c.prog[t]|
      ensures c.prog[t][i] < 4 && t in c.members[c.prog[t][i]]
    {
      if t == 0 { assert c.prog[t][i] == LeadCall(i); } else if t > 1 { assert c.prog[t][i] == SingleCall(i); }
    }
  }

  /** Calls of global barrier b among processor t's first p. */
  function Passed(t: nat, b: nat, p: nat): nat
    requires b < 3
  {
    if t == 0 then (if b == 0 then (p + 4) / 5 else if b == 1 then (p + 3) / 5 else p / 5)
    else (p + 2 - b) / 3
  }

  function LeadLocal(p: nat): nat { 2 * (p / 5) + if p % 5 <= 2 then 0 else p % 5 - 2 }

  lemma {:induction false} LeadCounts(iterations: nat, b: nat, p: nat)
    requires p <= 5 * iterations && b < 3
    ensures Count(Program(iterations, 0), b, p) == Passed(0, b, p)
  {
    if p > 0 { LeadCounts(iterations, b, p - 1); }
  }

  lemma {:induction false} LeadLocalCounts(iterations: nat, p: nat)
    requires p <= 5 * iterations
    ensures Count(Program(iterations, 0), LOCAL, p) == LeadLocal(p)
  {
    if p > 0 { LeadLocalCounts(iterations, p - 1); }
  }

  lemma {:induction false} HelperCounts(iterations: nat, p: nat)
    requires p <= 2 * iterations
    ensures Count(Program(iterations, 1), LOCAL, p) == p
  {
    if p > 0 { HelperCounts(iterations, p - 1); }
  }

  lemma {:induction false} SingleCounts(iterations: nat, t: nat, b: nat, p: nat)
    requires p <= 3 * iterations && t >= 2 && b < 3
    ensures Count(Program(iterations, t), b, p) == Passed(t, b, p)
  {
    if p > 0 { SingleCounts(iterations, t, b, p - 1); }
  }

  /** The barrier state of a configuration of this kind. */
  ghost predicate Holds(iterations: nat, threads: nat, s: State) {
    && threads >= 2 && WellFormed(DotConfig(iterations, threads)) && Inv(DotConfig(iterations, threads), s)
  }

  /** Processor t's calls and the round of global barrier b. */
  lemma RoundOf(iterations: nat, threads: nat, s: State, t: nat, b: nat)
    requires Holds(iterations, threads, s) && t < threads && t != 1 && b < 3
    ensures Passed(t, b, s.pos[t]) <= s.round[b] <= Passed(t, b, Begun(DotConfig(iterations, threads), s, t))
    ensures Passed(t, b, Begun(DotConfig(iterations, threads), s, t)) <= s.round[b] + 1
  {
    var c := DotConfig(iterations, threads);
    assert BarrierInv(c, s, b) && MemberInv(c, s, b, t);
    if t == 0 {
      LeadCounts(iterations, b, s.pos[t]);
      LeadCounts(iterations, b, Begun(c, s, t));
    } else {
      SingleCounts(iterations, t, b, s.pos[t]);
      SingleCounts(iterations, t, b, Begun(c, s, t));
    }
  }

  /** The two M3 tasks keep in step. */
  lemma Tasks(iterations: nat, threads: nat, s: State)
    requires Holds(iterations, threads, s)
    ensures LeadLocal(s.pos[0]) <= Begun(DotConfig(iterations, threads), s, 1)
    ensures s.pos[1] <= LeadLocal(Begun(DotConfig(iterations, threads), s, 0))
  {
    var c := DotConfig(iterations, threads);
    assert BarrierInv(c, s, LOCAL) && MemberInv(c, s, LOCAL, 0) && MemberInv(c, s, LOCAL, 1);
    LeadLocalCounts(iterations, s.pos[0]);
    LeadLocalCounts(iterations, Begun(c, s, 0));
    HelperCounts(iterations, s.pos[1]);
    HelperCounts(iterations, Begun(c, s, 1));
  }

  /** Clearing is the part between barriers 0 and 1, adding up the rest of an iteration. */
  lemma RoundsAreClose(iterations: nat, threads: nat, s: State)
    requires Holds(iterations, threads, s)
    ensures s.round[2] <= s.round[1] <= s.round[0] <= s.round[1] + 1
    ensures s.round[0] <= s.round[2] + 1
  {
    RoundOf(iterations, threads, s, 0, 0);
    RoundOf(iterations, threads, s, 0, 1);
    RoundOf(iterations, threads, s, 0, 2);
    LeadRounds(s.pos[0], Begun(DotConfig(iterations, threads), s, 0), s.round[0], s.round[1], s.round[2]);
  }

  lemma LeadRounds(p: nat, b: nat, g0: nat, g1: nat, g2: nat)
    requires p <= b <= p + 1
    requires Passed(0, 0, p) <= g0 <= Passed(0, 0, b) && Passed(0, 1, p) <= g1 <= Passed(0, 1, b)
    requires Passed(0, 2, p) <= g2 <= Passed(0, 2, b)
    ensures g2 <= g1 <= g0 <= g1 + 1 && g0 <= g2 + 1
  {
  }

  /** All threads but 1 begin with the same global calls. */
  lemma CommonStart(iterations: nat, threads: nat)
    requires threads >= 2 && iterations > 0
    ensures BarrierProgress.Common(DotConfig(iterations, threads), [0, 1], 1)
  {
    var c := DotConfig(iterations, threads);
    ConfigWellFormed(iterations, threads);
    hide WellFormed, Program;
    forall t: nat | t < threads && t != 1 ensures [0, 1] <= c.prog[t] { FirstCalls(iterations, t); }
    forall i, t: nat | 0 <= i < 2 ensures t in c.members[[0, 1][i]] <==> t < threads && t != 1 {
      assert c.members[i] == Grid.Upto(threads) - {1};
    }
  }

  lemma FirstCalls(iterations: nat, t: nat)
    requires iterations > 0 && t != 1
    ensures |Program(iterations, t)| >= 3 && Program(iterations, t)[0] == 0 && Program(iterations, t)[1] == 1
  {
  }

  /** The local barrier is called back to back, so the configuration can deadlock unless nothing is called. */
  lemma DeadlockFreeIff(iterations: nat, threads: nat)
    requires threads >= 2
    ensures var c := DotConfig(iterations, threads);
            WellFormed(c) && (BarrierProgress.DeadlockFree(c) <==> iterations == 0)
  {
    var c := DotConfig(iterations, threads);
    ConfigWellFormed(iterations, threads);
    if iterations > 0 {
      hide BarrierProgress.Common, WellFormed, BarrierProgress.DeadlockFree;
      CommonStart(iterations, threads);
      BarrierPairs.PairDeadlock(c, [0, 1], LOCAL);
    }
  }
}
