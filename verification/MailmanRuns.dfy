/** Whole runs of the mailman protocol: no reply is lost or misdelivered, no waiting caller is forgotten,
    and every run that cannot go on has returned to every caller whose reply was sent. */
module MailmanRuns {
  import opened Wrappers
  import opened Mailman

  ghost predicate Inv(s: State) {
    Basic(s) && Listed(s.callers, s.recipients) && Conserved(s) && NoOrphan(s)
  }

  /** Callers with distinct message ids, none of which has called yet. */
  ghost predicate Init(s: State) {
    && DistinctIds(s.callers)
    && (forall c | 0 <= c < |s.callers| :: s.callers[c] == Caller(s.callers[c].msgId, NotCalled, None, 0))
    && s.recipients == [] && s.newMail == [] && s.queue == [] && s.sent == []
    && s.mbxLock == None && s.queueLock == None
  }

  ghost predicate Next(s: State, s': State)
    requires Listed(s.callers, s.recipients)
  {
    (exists c: nat :: StepOf(s, s', c)) || (exists p :: Reply(s, s', p))
  }

  ghost predicate Run(run: seq<State>) {
    && |run| > 0 && Init(run[0])
    && (forall i | 0 <= i < |run| :: Listed(run[i].callers, run[i].recipients))
    && (forall i | 0 <= i < |run| - 1 :: Next(run[i], run[i + 1]))
  }

  lemma {:induction false} NothingHeld(callers: seq<Caller>)
    requires forall c | 0 <= c < |callers| :: Held(callers[c]) == multiset{}
    ensures Union(HeldBy(callers)) == multiset{}
  {
    if callers != [] {
      NothingHeld(callers[..|callers| - 1]);
      assert HeldBy(callers)[..|callers| - 1] == HeldBy(callers[..|callers| - 1]);
    }
  }

  lemma NextInv(s: State, s': State)
    requires Inv(s) && Next(s, s')
    ensures Inv(s')
  {
    if c: nat :| StepOf(s, s', c) {
      StepBasic(s, s', c);
      StepConserves(s, s', c);
      StepNoOrphan(s, s', c);
    } else {
      var p :| Reply(s, s', p);
      ReplyConserves(s, s', p);
      if s'.queueLock.None? && exists r: nat :: Unserved(s', r) {
        var r: nat :| Unserved(s', r);
        assert Unserved(s, r);
        var x: nat :| Successor(s, x);
        assert Successor(s', x);
      }
    }
    BasicListed(s');
  }

  lemma InitInv(s: State)
    requires Init(s)
    ensures Inv(s)
  {
    NothingHeld(s.callers);
  }

  lemma {:induction false} RunInv(run: seq<State>, i: nat)
    requires Run(run) && i < |run|
    ensures Inv(run[i])
  {
    if i == 0 {
      InitInv(run[0]);
    } else {
      RunInv(run, i - 1);
      assert Next(run[i - 1], run[i - 1 + 1]);
      NextInv(run[i - 1], run[i]);
    }
  }

  /** Every reply sent is in exactly one place: the queue, newMail, or one caller's hand, record or result.
      A caller returns only with its own reply, and mail for a caller on the wait list is never in newMail. */
  lemma RepliesConserved(run: seq<State>, i: nat, p: Packet, c: nat)
    requires Run(run) && i < |run| && p in run[i].sent && c < |run[i].callers|
    ensures var s := run[i];
            && multiset(s.queue)[p] + multiset(s.newMail)[p] + Union(HeldBy(s.callers))[p] == 1
            && (s.callers[c].pc.Returned? ==>
                  s.callers[c].pc.p in s.sent && s.callers[c].pc.p.msgId == s.callers[c].msgId)
            && (c in s.recipients ==> forall q | q in s.newMail :: q.msgId != s.callers[c].msgId)
  {
    RunInv(run, i);
    var s := run[i];
    assert p in multiset(s.sent) && multiset(s.sent)[p] == 1;
    if s.callers[c].pc.Returned? {
      UnionHas(HeldBy(s.callers), c);
      assert s.callers[c].pc.p in HeldBy(s.callers)[c];
      assert s.callers[c].pc.p in All(s);
    }
  }

  /** As long as a recipient is unserved and unsignalled, some caller is the mailman, or is about to try. */
  lemma NobodyForgotten(run: seq<State>, i: nat, r: nat)
    requires Run(run) && i < |run| && Unserved(run[i], r)
    ensures var s := run[i];
            || (exists m: nat :: m < |s.callers| && MailmanRole(s.callers[m].pc))
            || (exists x: nat :: Successor(s, x))
  {
    RunInv(run, i);
    if run[i].queueLock.Some? {
      assert MailmanRole(run[i].callers[run[i].queueLock.value].pc);
    }
  }

  /** Some caller that has called can move on. */
  ghost predicate CanStep(s: State)
    requires Listed(s.callers, s.recipients)
  {
    exists c: nat, s' :: StepOf(s, s', c) && !s.callers[c].pc.NotCalled?
  }

  /** Caller c would be one of them. */
  ghost predicate Enabled(s: State, c: nat) {
    && c < |s.callers|
    && var me := s.callers[c];
       match me.pc
       case NotCalled => false
       case Top => s.mbxLock.None?
       case Blocked => s.queue != []
       case Relocking(_) => s.mbxLock.None?
       case Waiting => me.event > 0
       case Woken => s.mbxLock.None?
       case Returned(_) => false
       case _ => true
  }

  lemma EnabledSteps(s: State, c: nat)
    requires Listed(s.callers, s.recipients) && Enabled(s, c)
    ensures CanStep(s)
  {
    var s' := match s.callers[c].pc
      case Top => Look(s, c)
      case Delivering => Get(s, c)
      case Holding(_) => Sort(s, c)
      case Blocked => GetBlocking(s, c)
      case Relocking(_) => Relock(s, c)
      case Waiting => Wake(s, c)
      case Woken => PickUp(s, c);
    assert StepOf(s, s', c);
  }

  /** A packet somebody holds, when no packet is in the mailman's hand, is its own caller's. */
  lemma HolderIsOwner(s: State, p: Packet) returns (d: nat)
    requires Basic(s) && p in Union(HeldBy(s.callers))
    requires forall d | 0 <= d < |s.callers| :: !s.callers[d].pc.Holding? && !s.callers[d].pc.Relocking?
    ensures d < |s.callers| && s.callers[d].msgId == p.msgId && p in Held(s.callers[d])
  {
    d := UnionFrom(HeldBy(s.callers), p);
  }

  /** Then the reply to a caller that still waits for it can only be in the queue. */
  lemma ReplyIsQueued(s: State, c: nat, p: Packet)
    requires Inv(s) && c < |s.callers| && p in s.sent && p.msgId == s.callers[c].msgId
    requires forall d | 0 <= d < |s.callers| :: !s.callers[d].pc.Holding? && !s.callers[d].pc.Relocking?
    requires (RecipientRole(s.callers[c].pc) && s.callers[c].msg == None) || MailmanRole(s.callers[c].pc)
    ensures s.queue != []
  {
    assert p in multiset(s.sent) && p in All(s) && p !in s.newMail;
    if p in Union(HeldBy(s.callers)) {
      var d := HolderIsOwner(s, p);
      assert d == c;
    }
  }

  /** Delivery is never stalled: while a caller waits for a reply that was sent, somebody can step. */
  lemma NoStall(s: State, c: nat, p: Packet)
    requires Inv(s) && c < |s.callers| && p in s.sent && p.msgId == s.callers[c].msgId
    requires !s.callers[c].pc.NotCalled? && !s.callers[c].pc.Returned?
    ensures CanStep(s)
  {
    var d := Somebody(s, c, p);
    EnabledSteps(s, d);
  }

  lemma Somebody(s: State, c: nat, p: Packet) returns (d: nat)
    requires Inv(s) && c < |s.callers| && p in s.sent && p.msgId == s.callers[c].msgId
    requires !s.callers[c].pc.NotCalled? && !s.callers[c].pc.Returned?
    ensures Enabled(s, d)
  {
    if s.queueLock.Some? && !s.callers[s.queueLock.value].pc.Blocked? {
      d := s.queueLock.value;
    } else if s.queueLock.Some? && s.queue != [] {
      d := s.queueLock.value;
    } else if Enabled(s, c) {
      d := c;
    } else if s.queueLock.None? {
      assert Unserved(s, c);
      d :| Successor(s, d);
    } else {
      ReplyIsQueued(s, c, p);
      d := c;
    }
  }

  /** What a caller's position is worth in steps. */
  ghost function Weight(pc: Pc): nat {
    match pc
    case NotCalled => 3
    case Top => 2
    case Delivering => 1
    case Holding(_) => 6
    case Blocked => 0
    case Relocking(_) => 7
    case Waiting => 0
    case Woken => 3
    case Returned(_) => 0
  }

  ghost function CallerRank(s: State, c: nat): nat
    requires c < |s.callers|
  {
    Weight(s.callers[c].pc) + 4 * s.callers[c].event + if Answered(s, s.callers[c].msgId) then 0 else 9
  }

  ghost function Ranks(s: State): seq<nat> {
    seq(|s.callers|, c requires 0 <= c < |s.callers| => CallerRank(s, c))
  }

  /** A bound on the steps still to come. */
  ghost function Rank(s: State): nat { Sum(Ranks(s)) + 8 * |s.queue| }

  lemma OneRank(s: State, s': State, c: nat)
    requires |s.callers| == |s'.callers| && c < |s.callers| && s'.sent == s.sent
    requires s'.callers == s.callers[c := s'.callers[c]] && s'.callers[c].msgId == s.callers[c].msgId
    ensures Sum(Ranks(s')) + CallerRank(s, c) == Sum(Ranks(s)) + CallerRank(s', c)
  {
    SumUpdate(Ranks(s), c, CallerRank(s', c));
    assert Ranks(s') == Ranks(s)[c := CallerRank(s', c)];
  }

  /** The packet in the mailman's hand weighs more than a signal to another caller. */
  lemma SignalRank(s: State, s1: State, s': State, c: nat, r: Option<nat>)
    requires |s.callers| == |s1.callers| == |s'.callers| && c < |s.callers| && s'.queue == s.queue
    requires s1.sent == s.sent == s'.sent && CallerRank(s1, c) + 5 <= CallerRank(s, c)
    requires s1.callers == s.callers[c := s1.callers[c]] && s1.callers[c].msgId == s.callers[c].msgId
    requires match r
             case None => s'.callers == s1.callers
             case Some(d) => d < |s.callers| && s'.callers == s1.callers[d := s'.callers[d]]
                             && s'.callers[d].msgId == s1.callers[d].msgId && CallerRank(s', d) <= CallerRank(s1, d) + 4
    ensures Rank(s') < Rank(s)
  {
    hide CallerRank;
    OneRank(s, s1, c);
    if r.Some? { OneRank(s1, s', r.value); } else { SameRanks(s1, s'); }
  }

  lemma SameRanks(s: State, s': State)
    requires s'.callers == s.callers && s'.sent == s.sent
    ensures Ranks(s') == Ranks(s)
  {
  }

  lemma SortRank(s: State, c: nat)
    requires Basic(s) && Listed(s.callers, s.recipients) && c < |s.callers| && s.callers[c].pc.Holding?
    ensures Rank(Sort(s, c)) < Rank(s)
  {
    hide Ranks, Rank;
    var p, s' := s.callers[c].pc.p, Sort(s, c);
    var own := p.msgId == s.callers[c].msgId;
    var s1 := Goto(s, c, if own then Returned(p) else Delivering);
    var r := if own then FindUnserved(s.callers, s.recipients) else FindOwner(s.callers, s.recipients, p.msgId);
    SignalRank(s, s1, s', c, r);
  }

  /** Each step of a caller uses up some of the rank, although it may signal another caller. */
  lemma StepRank(s: State, s': State, c: nat)
    requires Basic(s) && Listed(s.callers, s.recipients) && StepOf(s, s', c)
    ensures Rank(s') < Rank(s)
  {
    if s.callers[c].pc.Holding? {
      SortRank(s, c);
    } else {
      assert s'.callers == s.callers[c := s'.callers[c]];
      OneRank(s, s', c);
      assert CallerRank(s', c) + 8 * |s'.queue| < CallerRank(s, c) + 8 * |s.queue|;
    }
  }

  lemma ReplyRank(s: State, s': State, p: Packet)
    requires Basic(s) && Reply(s, s', p)
    ensures Rank(s') < Rank(s)
  {
    var c: nat :| c < |s.callers| && s.callers[c].msgId == p.msgId;
    forall d: nat | d < |s.callers|
      ensures CallerRank(s', d) == if d == c then CallerRank(s, c) - 9 else CallerRank(s, d)
    {
      assert p in s'.sent;
      if Answered(s, s.callers[d].msgId) {
        var q :| q in s.sent && q.msgId == s.callers[d].msgId;
        assert q in s'.sent;
      }
    }
    SumUpdate(Ranks(s), c, CallerRank(s', c));
    assert Ranks(s') == Ranks(s)[c := CallerRank(s', c)];
  }

  lemma NextRank(s: State, s': State)
    requires Basic(s) && Listed(s.callers, s.recipients) && Next(s, s')
    ensures Rank(s') < Rank(s)
  {
    if c: nat :| StepOf(s, s', c) {
      StepRank(s, s', c);
    } else {
      var p :| Reply(s, s', p);
      ReplyRank(s, s', p);
    }
  }

  lemma {:induction false} RankFalls(run: seq<State>)
    requires Run(run)
    ensures |run| - 1 + Rank(run[|run| - 1]) <= Rank(run[0])
  {
    var n := |run| - 1;
    if n > 0 {
      RankFalls(run[..n]);
      RunInv(run, n - 1);
      assert Next(run[n - 1], run[n - 1 + 1]);
      NextRank(run[n - 1], run[n]);
    }
  }

  /** Every run is finite: at most 12 steps for each caller. */
  lemma RunLength(run: seq<State>)
    requires Run(run)
    ensures |run| - 1 <= 12 * |run[0].callers|
  {
    RankFalls(run);
    SumBound(Ranks(run[0]), 12);
  }

  /** When nobody in the protocol can step, every caller that called and whose reply was sent has returned
      with that reply. */
  lemma EveryReplyArrives(run: seq<State>, c: nat, p: Packet)
    requires Run(run) && var s := run[|run| - 1];
             !CanStep(s) && c < |s.callers| && p in s.sent && p.msgId == s.callers[c].msgId
             && !s.callers[c].pc.NotCalled?
    ensures run[|run| - 1].callers[c].pc == Returned(p)
  {
    var s := run[|run| - 1];
    RunInv(run, |run| - 1);
    if !s.callers[c].pc.Returned? { NoStall(s, c, p); }
    var q := s.callers[c].pc.p;
    UnionHas(HeldBy(s.callers), c);
    assert q in HeldBy(s.callers)[c];
    assert q in All(s) && p in multiset(s.sent);
  }
}
