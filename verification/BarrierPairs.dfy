/** A barrier of two threads called back to back: the faster one can keep the slower one in the first call, and
    then neither ever leaves, whatever the other threads and barriers of the configuration. */
module BarrierPairs {
  import opened Wrappers
  import opened Barrier
  import opened BarrierProgress

  /** Thread t's next call names b. */
  ghost predicate Calls(c: Config, s: State, t: nat, b: nat)
    requires Shape(c, s)
  {
    t < |c.prog| && s.pos[t] < |c.prog[t]| && c.prog[t][s.pos[t]] == b
  }

  ghost predicate Pair(c: Config, b: nat, t: nat, u: nat) {
    && WellFormed(c) && b < |c.members| && c.members[b] == {t, u} && t != u && t < |c.prog| && u < |c.prog|
  }

  /** Both members spin in b on values its counter does not have. */
  ghost predicate Stuck(c: Config, s: State, b: nat, t: nat, u: nat)
    requires Pair(c, b, t, u) && Shape(c, s)
  {
    && Calls(c, s, t, b) && Calls(c, s, u, b)
    && s.target[t].Some? && s.target[t].value != s.words[b].counter
    && s.target[u].Some? && s.target[u].value != s.words[b].counter
  }

  /** Nobody else can change b's words. */
  lemma StuckStays(c: Config, s: State, s': State, b: nat, t: nat, u: nat, v: nat)
    requires Pair(c, b, t, u) && Shape(c, s) && Stuck(c, s, b, t, u) && StepOf(c, s, s', v) && Shape(c, s')
    ensures Stuck(c, s', b, t, u)
  {
    assert v != t && v != u;
    assert v !in c.members[b];
  }

  ghost function Limit(c: Config): seq<nat> {
    seq(|c.prog|, t requires 0 <= t < |c.prog| => 2 * |c.prog[t]|)
  }

  lemma TakenLimit(c: Config, s: State)
    requires Shape(c, s)
    ensures Taken(c, s) <= Sum(Limit(c))
  {
    SumMonotone(BarrierProgress.TakenBy(c, s), Limit(c));
  }

  /** So some run ends there: the others go on until nobody moves. */
  lemma {:induction false} StuckEnds(c: Config, s: State, b: nat, t: nat, u: nat) returns (s': State)
    requires Pair(c, b, t, u) && Inv(c, s) && Reachable(c, s) && Stuck(c, s, b, t, u)
    ensures Shape(c, s') && Reachable(c, s') && Stuck(c, s', b, t, u) && !CanStep(c, s')
    decreases Sum(Limit(c)) - Taken(c, s)
  {
    if CanStep(c, s) {
      var v: nat :| CanArrive(c, s, v) || CanLeave(c, s, v);
      var s1 := if CanArrive(c, s, v) then Arrive(c, s, v) else Leave(c, s, v);
      Extend(c, s, s1, v);
      StuckStays(c, s, s1, b, t, u, v);
      TakenStep(c, s, s1, v);
      TakenLimit(c, s1);
      s' := StuckEnds(c, s1, b, t, u);
    } else {
      s' := s;
    }
  }

  /** Both members are about to call b, in the same round. */
  lemma FreshWords(c: Config, s: State, b: nat, t: nat, u: nat)
    requires Pair(c, b, t, u) && Inv(c, s) && s.target[t].None? && s.target[u].None?
    ensures s.words[b] == Open(2, s.round[b], 0)
  {
    assert BarrierInv(c, s, b) && MemberInv(c, s, b, t) && MemberInv(c, s, b, u);
    assert Inside(c, s, b) == {};
  }

  lemma InvShape(c: Config, s: State)
    requires WellFormed(c) && Inv(c, s)
    ensures Shape(c, s)
  {
  }

  /** t and u arrive, t leaves and arrives again before u has looked. */
  lemma PairLost(c: Config, s: State, b: nat, t: nat, u: nat) returns (s': State)
    requires Pair(c, b, t, u) && Inv(c, s) && Reachable(c, s)
    requires s.target[t].None? && s.target[u].None? && Calls(c, s, t, b) && Calls(c, s, u, b)
    requires s.pos[t] + 1 < |c.prog[t]| && c.prog[t][s.pos[t] + 1] == b
    ensures Inv(c, s') && Reachable(c, s') && Stuck(c, s', b, t, u)
  {
    hide Reachable, Inv, BarrierProgress.Uniform;
    InvShape(c, s);
    var g := s.round[b];
    FreshWords(c, s, b, t, u);
    OpenArrived(2, g, 0);
    OpenArrived(2, g, 1);
    OpenArrived(2, g + 1, 0);
    var s1 := Arrive(c, s, t);
    Extend(c, s, s1, t);
    var s2 := Arrive(c, s1, u);
    Extend(c, s1, s2, u);
    var s3 := Leave(c, s2, t);
    Extend(c, s2, s3, t);
    s' := Arrive(c, s3, t);
    Extend(c, s3, s', t);
  }

  /** If thread 0 calls the barrier it shares with thread 1 twice in a row after the common calls, and thread 1
      begins with it, some run deadlocks. */
  lemma PairDeadlock(c: Config, prog: seq<nat>, b: nat)
    requires Common(c, prog, 1) && Pair(c, b, 0, 1)
    requires |prog| + 1 < |c.prog[0]| && c.prog[0][|prog|] == c.prog[0][|prog| + 1] == b
    requires |c.prog[1]| > 0 && c.prog[1][0] == b
    ensures !DeadlockFree(c)
  {
    var s := AllReach(c, prog, 1, |prog|);
    var s1 := PairLost(c, s, b, 0, 1);
    var s2 := StuckEnds(c, s1, b, 0, 1);
    var run :| Run(c, run) && run[|run| - 1] == s2;
  }
}
