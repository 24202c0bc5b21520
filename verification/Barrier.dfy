/** The sense-reversing barrier of callBarrier and callLocalBarrier.

    A barrier is two words. The counter runs down while the sense word is positive and up while it is
    negative; whoever brings it to the end of its range flips the sense. A call has two steps: the
    arrival, done under a lock, and the spin, left when the counter is seen at the value noted on
    arrival. Threads run any programs over any barriers; `round` is history that no step reads. */
module Barrier {
  import opened Wrappers

  datatype Words = Words(counter: int, sense: int)

  /** The counter value that ends the round an arrival at w joins. */
  function Target(w: Words): int {
    if w.sense > 0 then 0 else -w.sense
  }

  /** The words after one arrival. */
  function Arrived(w: Words): Words {
    var counter := if w.sense > 0 then w.counter - 1 else w.counter + 1;
    Words(counter, if counter == Target(w) then -w.sense else w.sense)
  }

  function WordsAt(mem: seq<int>, indx: nat): Words
    requires 2 * indx + 1 < |mem|
  {
    Words(mem[2 * indx], mem[2 * indx + 1])
  }

  /** The locked part of callBarrier, on the shared words themselves. */
  method ArriveAtBarrier(barrierAddr: array<int>, indx: nat) returns (barrierCount: int)
    requires 2 * indx + 1 < barrierAddr.Length
    modifies barrierAddr
    ensures barrierCount == Target(old(WordsAt(barrierAddr[..], indx)))
    ensures WordsAt(barrierAddr[..], indx) == Arrived(old(WordsAt(barrierAddr[..], indx)))
    ensures forall i | 0 <= i < barrierAddr.Length && i / 2 != indx :: barrierAddr[i] == old(barrierAddr[i])
  {
    var realIndx := 2 * indx;
    if barrierAddr[realIndx + 1] > 0 {
      barrierCount := 0;
      barrierAddr[realIndx] := barrierAddr[realIndx] - 1;
    } else {
      barrierCount := -barrierAddr[realIndx + 1];
      barrierAddr[realIndx] := barrierAddr[realIndx] + 1;
    }
    if barrierAddr[realIndx] == barrierCount {
      barrierAddr[realIndx + 1] := -barrierAddr[realIndx + 1];
    }
  }

  /** prog[t] lists the barriers thread t calls; members[b] are the threads barrier b was sized for. */
  datatype Config = Config(prog: seq<seq<nat>>, members: seq<set<nat>>)

  ghost predicate WellFormed(c: Config) {
    && (forall t, i | 0 <= t < |c.prog| && 0 <= i < |c.prog[t]| ::
          c.prog[t][i] < |c.members| && t in c.members[c.prog[t][i]])
    && (forall b, t | 0 <= b < |c.members| && t in c.members[b] :: t < |c.prog|)
  }

  /** pos[t] counts the calls thread t has returned from; target[t] is what it spins on. */
  datatype State = State(words: seq<Words>, pos: seq<nat>, target: seq<Option<int>>, round: seq<nat>)

  ghost predicate Shape(c: Config, s: State) {
    && |s.words| == |s.round| == |c.members|
    && |s.pos| == |s.target| == |c.prog|
    && (forall t | 0 <= t < |c.prog| :: s.pos[t] <= |c.prog[t]|)
    && (forall t | 0 <= t < |c.prog| && s.target[t].Some? :: s.pos[t] < |c.prog[t]|)
  }

  ghost function Init(c: Config): State {
    State(seq(|c.members|, b requires 0 <= b < |c.members| => Words(|c.members[b]|, |c.members[b]|)),
          seq(|c.prog|, t => 0), seq(|c.prog|, t => None), seq(|c.members|, b => 0))
  }

  ghost predicate CanArrive(c: Config, s: State, t: nat)
    requires WellFormed(c) && Shape(c, s)
  {
    t < |c.prog| && s.target[t].None? && s.pos[t] < |c.prog[t]|
  }

  ghost function Arrive(c: Config, s: State, t: nat): State
    requires WellFormed(c) && Shape(c, s) && CanArrive(c, s, t)
  {
    var b := c.prog[t][s.pos[t]];
    var w := Arrived(s.words[b]);
    s.(words := s.words[b := w], target := s.target[t := Some(Target(s.words[b]))],
       round := if w.counter == Target(s.words[b]) then s.round[b := s.round[b] + 1] else s.round)
  }

  ghost predicate CanLeave(c: Config, s: State, t: nat)
    requires WellFormed(c) && Shape(c, s)
  {
    t < |c.prog| && s.target[t].Some? && s.words[c.prog[t][s.pos[t]]].counter == s.target[t].value
  }

  ghost function Leave(c: Config, s: State, t: nat): State
    requires WellFormed(c) && Shape(c, s) && CanLeave(c, s, t)
  {
    s.(pos := s.pos[t := s.pos[t] + 1], target := s.target[t := None])
  }

  ghost predicate StepOf(c: Config, s: State, s': State, t: nat)
    requires WellFormed(c) && Shape(c, s)
  {
    (CanArrive(c, s, t) && s' == Arrive(c, s, t)) || (CanLeave(c, s, t) && s' == Leave(c, s, t))
  }

  /** Calls of barrier b among the first n of p. */
  ghost function Count(p: seq<nat>, b: nat, n: nat): nat
    requires n <= |p|
  {
    if n == 0 then 0 else Count(p, b, n - 1) + if p[n - 1] == b then 1 else 0
  }

  lemma {:induction false} CountMonotone(p: seq<nat>, b: nat, m: nat, n: nat)
    requires m <= n <= |p|
    ensures Count(p, b, m) <= Count(p, b, n) <= Count(p, b, m) + n - m
  {
    if m < n { CountMonotone(p, b, m, n - 1); }
  }

  /** Calls begun by thread t: those returned from and the one it spins in. */
  ghost function Begun(c: Config, s: State, t: nat): nat
    requires Shape(c, s) && t < |c.prog|
    ensures Begun(c, s, t) <= |c.prog[t]|
  {
    s.pos[t] + if s.target[t].Some? then 1 else 0
  }

  /** Rounds of b thread t has arrived at, and left. */
  ghost function Arrivals(c: Config, s: State, t: nat, b: nat): nat
    requires Shape(c, s) && t < |c.prog|
  {
    Count(c.prog[t], b, Begun(c, s, t))
  }

  ghost function Exits(c: Config, s: State, t: nat, b: nat): nat
    requires Shape(c, s) && t < |c.prog|
  {
    Count(c.prog[t], b, s.pos[t])
  }

  /** Members that have arrived in the open round of b. */
  ghost function Inside(c: Config, s: State, b: nat): set<nat>
    requires WellFormed(c) && Shape(c, s) && b < |c.members|
  {
    set t | t in c.members[b] && Arrivals(c, s, t, b) == s.round[b] + 1
  }

  /** The counter when round r of a barrier of n members ends. */
  ghost function Final(n: int, r: nat): int {
    if r % 2 == 0 then 0 else n
  }

  /** The words in round g of a barrier of n members, k of them arrived. */
  ghost function Open(n: int, g: nat, k: int): Words {
    if g % 2 == 0 then Words(n - k, n) else Words(k, -n)
  }

  lemma OpenArrived(n: int, g: nat, k: int)
    requires 0 <= k < n
    ensures Target(Open(n, g, k)) == Final(n, g)
    ensures Arrived(Open(n, g, k)) == if k + 1 == n then Open(n, g + 1, 0) else Open(n, g, k + 1)
    ensures Arrived(Open(n, g, k)).counter == Final(n, g) <==> k + 1 == n
  {
  }

  ghost predicate BarrierInv(c: Config, s: State, b: nat)
    requires WellFormed(c) && Shape(c, s) && b < |c.members|
  {
    var n, g, k := |c.members[b]|, s.round[b], |Inside(c, s, b)|;
    && s.words[b] == Open(n, g, k)
    && (n > 0 ==> k < n)
    && forall t | t in c.members[b] :: MemberInv(c, s, b, t)
  }

  /** Thread t is at most one round off, and what it spins on ends the round it arrived in. */
  ghost predicate MemberInv(c: Config, s: State, b: nat, t: nat)
    requires WellFormed(c) && Shape(c, s) && b < |c.members| && t in c.members[b]
  {
    && Exits(c, s, t, b) <= s.round[b] <= Arrivals(c, s, t, b) <= s.round[b] + 1
    && (s.target[t].Some? && c.prog[t][s.pos[t]] == b ==>
          s.target[t].value == Final(|c.members[b]|, Exits(c, s, t, b)))
  }

  ghost predicate Inv(c: Config, s: State)
    requires WellFormed(c)
  {
    Shape(c, s) && forall b | 0 <= b < |c.members| :: BarrierInv(c, s, b)
  }

  lemma InitInv(c: Config)
    requires WellFormed(c)
    ensures Inv(c, Init(c))
  {
    var s := Init(c);
    forall b | 0 <= b < |c.members| ensures BarrierInv(c, s, b) {
      assert Inside(c, s, b) == {};
    }
  }

  lemma ArriveCounts(c: Config, s: State, t: nat, u: nat, b: nat)
    requires WellFormed(c) && Shape(c, s) && CanArrive(c, s, t) && u < |c.prog|
    ensures Exits(c, Arrive(c, s, t), u, b) == Exits(c, s, u, b)
    ensures Arrivals(c, Arrive(c, s, t), u, b)
         == Arrivals(c, s, u, b) + if u == t && b == c.prog[t][s.pos[t]] then 1 else 0
  {
  }

  /** An arrival joins the open round; the last one ends it. */
  lemma ArriveWords(c: Config, s: State, t: nat, b: nat, inside: set<nat>)
    requires WellFormed(c) && Inv(c, s) && CanArrive(c, s, t)
    requires b == c.prog[t][s.pos[t]] && inside == Inside(c, s, b)
    ensures var s', n, k := Arrive(c, s, t), |c.members[b]|, |inside|;
            && 0 <= k < n && t in c.members[b] && t !in inside && inside <= c.members[b]
            && s'.words[b] == (if k + 1 == n then Open(n, s.round[b] + 1, 0) else Open(n, s.round[b], k + 1))
            && s'.round[b] == (if k + 1 == n then s.round[b] + 1 else s.round[b])
            && s'.target[t] == Some(Final(n, s.round[b])) && Exits(c, s, t, b) == s.round[b]
  {
    assert BarrierInv(c, s, b) && t in c.members[b];
    assert Exits(c, s, t, b) == Arrivals(c, s, t, b);
    OpenArrived(|c.members[b]|, s.round[b], |inside|);
  }

  lemma ArriveInside(c: Config, s: State, t: nat, b: nat, inside: set<nat>)
    requires WellFormed(c) && Inv(c, s) && CanArrive(c, s, t)
    requires b == c.prog[t][s.pos[t]] && inside == Inside(c, s, b)
    ensures Inside(c, Arrive(c, s, t), b) == if |inside| + 1 == |c.members[b]| then {} else inside + {t}
  {
    var s', members := Arrive(c, s, t), c.members[b];
    ArriveWords(c, s, t, b, inside);
    SubsetSize(inside + {t}, members);
    forall u | u in members
      ensures Arrivals(c, s', u, b) == s.round[b] + 1 <==> u in inside + {t}
      ensures Arrivals(c, s', u, b) <= s.round[b] + 1
    {
      ArriveCounts(c, s, t, u, b);
      assert BarrierInv(c, s, b);
    }
  }

  lemma ArriveMember(c: Config, s: State, t: nat, b: nat, inside: set<nat>, u: nat)
    requires WellFormed(c) && Inv(c, s) && CanArrive(c, s, t)
    requires b == c.prog[t][s.pos[t]] && inside == Inside(c, s, b) && u in c.members[b]
    ensures MemberInv(c, Arrive(c, s, t), b, u)
  {
    ArriveWords(c, s, t, b, inside);
    ArriveCounts(c, s, t, u, b);
    assert BarrierInv(c, s, b) && MemberInv(c, s, b, u);
    SubsetSize(inside + {t}, c.members[b]);
  }

  lemma ArriveHere(c: Config, s: State, t: nat)
    requires WellFormed(c) && Inv(c, s) && CanArrive(c, s, t)
    ensures BarrierInv(c, Arrive(c, s, t), c.prog[t][s.pos[t]])
  {
    var b := c.prog[t][s.pos[t]];
    var inside := Inside(c, s, b);
    ArriveWords(c, s, t, b, inside);
    ArriveInside(c, s, t, b, inside);
    forall u | u in c.members[b] ensures MemberInv(c, Arrive(c, s, t), b, u) {
      ArriveMember(c, s, t, b, inside, u);
    }
  }

  lemma ArriveElsewhere(c: Config, s: State, t: nat, b: nat)
    requires WellFormed(c) && Inv(c, s) && CanArrive(c, s, t)
    requires b < |c.members| && b != c.prog[t][s.pos[t]]
    ensures BarrierInv(c, Arrive(c, s, t), b)
  {
    assert BarrierInv(c, s, b);
    forall u | u in c.members[b] ensures MemberInv(c, Arrive(c, s, t), b, u) {
      ArriveCounts(c, s, t, u, b);
      assert MemberInv(c, s, b, u);
    }
    forall u | u in c.members[b] { ArriveCounts(c, s, t, u, b); }
    assert Inside(c, Arrive(c, s, t), b) == Inside(c, s, b);
  }

  lemma ArriveInv(c: Config, s: State, t: nat)
    requires WellFormed(c) && Inv(c, s) && CanArrive(c, s, t)
    ensures Inv(c, Arrive(c, s, t))
  {
    forall b | 0 <= b < |c.members| ensures BarrierInv(c, Arrive(c, s, t), b) {
      if b == c.prog[t][s.pos[t]] { ArriveHere(c, s, t); } else { ArriveElsewhere(c, s, t, b); }
    }
  }

  lemma SubsetSize(a: set<nat>, b: set<nat>)
    requires a <= b
    ensures |a| <= |b| && (|a| == |b| <==> a == b)
  {
    assert b == a + (b - a);
    assert |b| == |a| + |b - a|;
  }

  /** A thread that leaves b leaves a round that is over. */
  lemma LeavesOldRound(c: Config, s: State, t: nat)
    requires WellFormed(c) && Inv(c, s) && CanLeave(c, s, t)
    ensures var b := c.prog[t][s.pos[t]];
            Exits(c, s, t, b) + 1 == Arrivals(c, s, t, b) == s.round[b]
  {
    var b := c.prog[t][s.pos[t]];
    assert BarrierInv(c, s, b);
  }

  lemma LeaveInv(c: Config, s: State, t: nat)
    requires WellFormed(c) && Inv(c, s) && CanLeave(c, s, t)
    ensures Inv(c, Leave(c, s, t))
  {
    LeavesOldRound(c, s, t);
    var s' := Leave(c, s, t);
    forall b | 0 <= b < |c.members| ensures BarrierInv(c, s', b) {
      assert BarrierInv(c, s, b);
      assert forall u | u in c.members[b] :: Arrivals(c, s', u, b) == Arrivals(c, s, u, b);
      assert forall u | u in c.members[b] && u != t :: Exits(c, s', u, b) == Exits(c, s, u, b);
      assert Inside(c, s', b) == Inside(c, s, b);
    }
  }

  lemma StepInv(c: Config, s: State, s': State, t: nat)
    requires WellFormed(c) && Inv(c, s) && StepOf(c, s, s', t)
    ensures Inv(c, s')
  {
    if CanArrive(c, s, t) { ArriveInv(c, s, t); } else { LeaveInv(c, s, t); }
  }

  /** Runs: any interleaving of the threads' arrivals and exits. */
  ghost predicate Run(c: Config, run: seq<State>)
    requires WellFormed(c)
  {
    && |run| > 0 && run[0] == Init(c)
    && (forall i | 0 <= i < |run| :: Shape(c, run[i]))
    && (forall i | 0 <= i < |run| - 1 :: Next(c, run[i], run[i + 1]))
  }

  ghost predicate Next(c: Config, s: State, s': State)
    requires WellFormed(c) && Shape(c, s)
  {
    exists t: nat :: StepOf(c, s, s', t)
  }

  lemma {:induction false} RunInv(c: Config, run: seq<State>, i: nat)
    requires WellFormed(c) && Run(c, run) && i < |run|
    ensures Inv(c, run[i])
  {
    if i == 0 {
      InitInv(c);
    } else {
      RunInv(c, run, i - 1);
      assert Next(c, run[i - 1], run[i - 1 + 1]);
      var t: nat :| StepOf(c, run[i - 1], run[i], t);
      StepInv(c, run[i - 1], run[i], t);
    }
  }

  /** Safety, for any programs and any reuse: nobody leaves round r of b before every member arrived at
      it, members are at most one round apart, and the counter stays within 0..n. */
  lemma BarrierSafety(c: Config, run: seq<State>, i: nat, b: nat, t: nat, u: nat)
    requires WellFormed(c) && Run(c, run) && i < |run|
    requires b < |c.members| && t in c.members[b] && u in c.members[b]
    ensures Exits(c, run[i], t, b) <= Arrivals(c, run[i], u, b)
    ensures Arrivals(c, run[i], t, b) <= Arrivals(c, run[i], u, b) + 1
    ensures 0 <= run[i].words[b].counter <= |c.members[b]|
  {
    RunInv(c, run, i);
    assert BarrierInv(c, run[i], b);
    SubsetSize(Inside(c, run[i], b), c.members[b]);
  }
}
