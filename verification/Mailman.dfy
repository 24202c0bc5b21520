/** How RcmClient_getReturnMsg_P hands replies to their callers.

    One caller at a time holds queueLock and is the mailman: it takes replies off the message queue and
    puts each in its owner's recipient record or, for an owner not waiting yet, in newMail; when it meets
    its own reply it signals a waiting recipient to take the role over. Everything done under mbxLock
    between two waits is one step; the server's replies arrive at any moment. Runs without IPC errors. */
module Mailman {
  import opened Wrappers

  datatype Packet = Packet(msgId: nat, body: int)

  /** Where a call of getReturnMsg_P is: before it, at the top of its loop, in the mailman role (looking at
      the queue, holding a packet, blocked on the queue, or holding a packet and waiting for mbxLock), or
      in the recipient role (on the wait list, or woken from its event), or returned. */
  datatype Pc = NotCalled | Top | Delivering | Holding(p: Packet) | Blocked | Relocking(p: Packet)
              | Waiting | Woken | Returned(p: Packet)

  /** A caller with its recipient record: msg and the count of its event semaphore. */
  datatype Caller = Caller(msgId: nat, pc: Pc, msg: Option<Packet>, event: nat)

  datatype State = State(
    callers: seq<Caller>, recipients: seq<nat>, newMail: seq<Packet>,
    queue: seq<Packet>, mbxLock: Option<nat>, queueLock: Option<nat>, sent: seq<Packet>)

  /** Index of the first packet for msgId. */
  function FindMail(mail: seq<Packet>, msgId: nat): (r: Option<nat>)
    ensures r.Some? ==> r.value < |mail| && mail[r.value].msgId == msgId
    ensures r.None? ==> forall i | 0 <= i < |mail| :: mail[i].msgId != msgId
  {
    if mail == [] then None
    else if mail[0].msgId == msgId then Some(0)
    else
      var r := FindMail(mail[1..], msgId);
      if r.Some? then Some(r.value + 1) else None
  }

  lemma {:induction false} MailIsFirst(mail: seq<Packet>, msgId: nat, i: nat)
    requires match FindMail(mail, msgId) case Some(k) => i < k case None => i < |mail|
    ensures mail[i].msgId != msgId
  {
    if i > 0 { MailIsFirst(mail[1..], msgId, i - 1); }
  }

  ghost predicate Listed(callers: seq<Caller>, recipients: seq<nat>) {
    forall i | 0 <= i < |recipients| :: recipients[i] < |callers|
  }

  /** The first recipient waiting for msgId. */
  ghost function FindOwner(callers: seq<Caller>, recipients: seq<nat>, msgId: nat): (r: Option<nat>)
    requires Listed(callers, recipients)
    ensures r.Some? ==> r.value in recipients && callers[r.value].msgId == msgId
    ensures r.None? ==> forall c | c in recipients :: callers[c].msgId != msgId
  {
    if recipients == [] then None
    else if callers[recipients[0]].msgId == msgId then Some(recipients[0])
    else FindOwner(callers, recipients[1..], msgId)
  }

  /** Nobody before it waits for msgId. */
  lemma {:induction false} OwnerIsFirst(callers: seq<Caller>, recipients: seq<nat>, msgId: nat) returns (k: nat)
    requires Listed(callers, recipients) && FindOwner(callers, recipients, msgId).Some?
    ensures k < |recipients| && FindOwner(callers, recipients, msgId) == Some(recipients[k])
    ensures forall j | 0 <= j < k :: callers[recipients[j]].msgId != msgId
  {
    k := 0;
    if callers[recipients[0]].msgId != msgId {
      k := OwnerIsFirst(callers, recipients[1..], msgId);
      assert forall j | 0 < j <= k :: recipients[j] == recipients[1..][j - 1];
      k := k + 1;
    }
  }

  /** The first recipient without a message. */
  ghost function FindUnserved(callers: seq<Caller>, recipients: seq<nat>): (r: Option<nat>)
    requires Listed(callers, recipients)
    ensures r.Some? ==> r.value in recipients && callers[r.value].msg == None
    ensures r.None? ==> forall c | c in recipients :: callers[c].msg != None
  {
    if recipients == [] then None
    else if callers[recipients[0]].msg == None then Some(recipients[0])
    else FindUnserved(callers, recipients[1..])
  }

  /** All before it have one. */
  lemma {:induction false} UnservedIsFirst(callers: seq<Caller>, recipients: seq<nat>) returns (k: nat)
    requires Listed(callers, recipients) && FindUnserved(callers, recipients).Some?
    ensures k < |recipients| && FindUnserved(callers, recipients) == Some(recipients[k])
    ensures callers[recipients[k]].msg == None && forall j | 0 <= j < k :: callers[recipients[j]].msg != None
  {
    k := 0;
    if callers[recipients[0]].msg != None {
      k := UnservedIsFirst(callers, recipients[1..]);
      assert forall j | 0 < j <= k :: recipients[j] == recipients[1..][j - 1];
      k := k + 1;
    }
  }

  /** Signal the caller's event. */
  ghost function Post(callers: seq<Caller>, c: nat): seq<Caller>
    requires c < |callers|
  {
    callers[c := callers[c].(event := callers[c].event + 1)]
  }

  /** The mailbox part of the client object. */
  class Mailbox {
    var newMail: seq<Packet>
    var recipients: seq<nat>
    var callers: seq<Caller>

    constructor ()
      ensures newMail == [] && recipients == [] && callers == []
    {
      newMail, recipients, callers := [], [], [];
    }

    /** Search newMail for the caller's own reply and take it out. */
    method Collect(msgId: nat) returns (found: Option<Packet>)
      modifies this`newMail
      ensures match FindMail(old(newMail), msgId)
              case None => found == None && newMail == old(newMail)
              case Some(i) => (found == Some(old(newMail)[i])
                               && newMail == old(newMail)[..i] + old(newMail)[i + 1..])
    {
      var i := 0;
      while i < |newMail|
        invariant i <= |newMail| && newMail == old(newMail)
        invariant forall j | 0 <= j < i :: newMail[j].msgId != msgId
        invariant FindMail(newMail, msgId)
               == match FindMail(newMail[i..], msgId) case None => None case Some(j) => Some(i + j)
      {
        if newMail[i].msgId == msgId {
          found := Some(newMail[i]);
          newMail := newMail[..i] + newMail[i + 1..];
          return;
        }
        i := i + 1;
        assert newMail[i - 1..][1..] == newMail[i..];
      }
      found := None;
    }

    /** Search the recipient list for the packet's owner; keep the packet in newMail if it has none. */
    method Deliver(p: Packet)
      requires Listed(callers, recipients)
      modifies this`newMail, this`callers
      ensures match FindOwner(old(callers), recipients, p.msgId)
              case None => callers == old(callers) && newMail == old(newMail) + [p]
              case Some(c) => (newMail == old(newMail)
                               && callers == Post(old(callers)[c := old(callers)[c].(msg := Some(p))], c))
    {
      var i := 0;
      while i < |recipients|
        invariant i <= |recipients| && callers == old(callers) && newMail == old(newMail)
        invariant FindOwner(callers, recipients, p.msgId) == FindOwner(callers, recipients[i..], p.msgId)
      {
        var c := recipients[i];
        if callers[c].msgId == p.msgId {
          callers := callers[c := callers[c].(msg := Some(p), event := callers[c].event + 1)];
          return;
        }
        i := i + 1;
        assert recipients[i - 1..][1..] == recipients[i..];
      }
      newMail := newMail + [p];
    }

    /** Search the recipient list for a new mailman and signal it. */
    method HandOver()
      requires Listed(callers, recipients)
      modifies this`callers
      ensures match FindUnserved(old(callers), recipients)
              case None => callers == old(callers)
              case Some(c) => callers == Post(old(callers), c)
    {
      var i := 0;
      while i < |recipients|
        invariant i <= |recipients| && callers == old(callers)
        invariant FindUnserved(callers, recipients) == FindUnserved(callers, recipients[i..])
      {
        var c := recipients[i];
        if callers[c].msg == None {
          callers := callers[c := callers[c].(event := callers[c].event + 1)];
          return;
        }
        i := i + 1;
        assert recipients[i - 1..][1..] == recipients[i..];
      }
    }
  }

  ghost predicate Is(s: State, c: nat, pc: Pc) { c < |s.callers| && s.callers[c].pc == pc }

  ghost function Goto(s: State, c: nat, pc: Pc): State
    requires c < |s.callers|
  {
    s.(callers := s.callers[c := s.callers[c].(pc := pc)])
  }

  ghost function Call(s: State, c: nat): State
    requires Is(s, c, NotCalled)
  {
    Goto(s, c, Top)
  }

  /** The top of the loop: the caller's own mail, else the mailman role if it is free, else the wait list. */
  ghost function Look(s: State, c: nat): State
    requires Is(s, c, Top) && s.mbxLock.None?
  {
    match FindMail(s.newMail, s.callers[c].msgId)
    case Some(i) => Goto(s, c, Returned(s.newMail[i])).(newMail := s.newMail[..i] + s.newMail[i + 1..])
    case None =>
      if s.queueLock.None? then Goto(s, c, Delivering).(mbxLock := Some(c), queueLock := Some(c))
      else s.(recipients := s.recipients + [c],
              callers := s.callers[c := s.callers[c].(pc := Waiting, msg := None, event := 0)])
  }

  /** The mailman looks at the queue without blocking; if it is empty it lets mbxLock go. */
  ghost function Get(s: State, c: nat): State
    requires Is(s, c, Delivering)
  {
    if s.queue == [] then Goto(s, c, Blocked).(mbxLock := None)
    else Goto(s, c, Holding(s.queue[0])).(queue := s.queue[1..])
  }

  ghost function GetBlocking(s: State, c: nat): State
    requires Is(s, c, Blocked) && s.queue != []
  {
    Goto(s, c, Relocking(s.queue[0])).(queue := s.queue[1..])
  }

  ghost function Relock(s: State, c: nat): State
    requires c < |s.callers| && s.callers[c].pc.Relocking? && s.mbxLock.None?
  {
    Goto(s, c, Holding(s.callers[c].pc.p)).(mbxLock := Some(c))
  }

  /** The mailman deals with the packet in its hand. */
  ghost function Sort(s: State, c: nat): State
    requires c < |s.callers| && s.callers[c].pc.Holding? && Listed(s.callers, s.recipients)
  {
    var p := s.callers[c].pc.p;
    if p.msgId == s.callers[c].msgId then
      var s1 := Goto(s, c, Returned(p)).(mbxLock := None, queueLock := None);
      match FindUnserved(s.callers, s.recipients)
      case None => s1
      case Some(r) => s1.(callers := Post(s1.callers, r))
    else
      var s1 := Goto(s, c, Delivering);
      match FindOwner(s.callers, s.recipients, p.msgId)
      case None => s1.(newMail := s.newMail + [p])
      case Some(r) => s1.(callers := Post(s1.callers[r := s1.callers[r].(msg := Some(p))], r))
  }

  ghost function Wake(s: State, c: nat): State
    requires Is(s, c, Waiting) && s.callers[c].event > 0
  {
    s.(callers := s.callers[c := s.callers[c].(pc := Woken, event := s.callers[c].event - 1)])
  }

  function Without(recipients: seq<nat>, c: nat): (r: seq<nat>)
    ensures forall d :: d in r <==> d in recipients && d != c
  {
    if recipients == [] then []
    else
      var r := Without(recipients[1..], c);
      if recipients[0] == c then r else [recipients[0]] + r
  }

  /** A woken recipient takes its message, if there is one, and leaves the wait list either way. */
  ghost function PickUp(s: State, c: nat): State
    requires Is(s, c, Woken) && s.mbxLock.None?
  {
    var me := s.callers[c];
    var pc := if me.msg.Some? then Returned(me.msg.value) else Top;
    s.(recipients := Without(s.recipients, c), callers := s.callers[c := Caller(me.msgId, pc, None, 0)])
  }

  /** Caller c moves on. */
  ghost predicate StepOf(s: State, s': State, c: nat)
    requires Listed(s.callers, s.recipients)
  {
    && c < |s.callers|
    && match s.callers[c].pc
       case NotCalled => s' == Call(s, c)
       case Top => s.mbxLock.None? && s' == Look(s, c)
       case Delivering => s' == Get(s, c)
       case Holding(_) => s' == Sort(s, c)
       case Blocked => s.queue != [] && s' == GetBlocking(s, c)
       case Relocking(_) => s.mbxLock.None? && s' == Relock(s, c)
       case Waiting => s.callers[c].event > 0 && s' == Wake(s, c)
       case Woken => s.mbxLock.None? && s' == PickUp(s, c)
       case Returned(_) => false
  }

  ghost predicate Answered(s: State, msgId: nat) { exists p :: p in s.sent && p.msgId == msgId }

  /** The server answers an outstanding message. */
  ghost predicate Reply(s: State, s': State, p: Packet) {
    && (exists c :: 0 <= c < |s.callers| && s.callers[c].msgId == p.msgId) && !Answered(s, p.msgId)
    && s' == s.(queue := s.queue + [p], sent := s.sent + [p])
  }

  ghost predicate MailmanRole(pc: Pc) { pc.Delivering? || pc.Holding? || pc.Blocked? || pc.Relocking? }

  ghost predicate RecipientRole(pc: Pc) { pc.Waiting? || pc.Woken? }

  /** Who holds the locks, and who is on the wait list. */
  ghost predicate Roles(s: State) {
    && (forall c :: c in s.recipients <==> 0 <= c < |s.callers| && RecipientRole(s.callers[c].pc))
    && (s.queueLock.Some? ==> s.queueLock.value < |s.callers|)
    && (s.mbxLock.Some? ==> s.mbxLock.value < |s.callers|)
    && (forall c: nat | c < |s.callers| :: MailmanRole(s.callers[c].pc) <==> s.queueLock == Some(c))
    && (forall c: nat | c < |s.callers| ::
          s.callers[c].pc.Delivering? || s.callers[c].pc.Holding? <==> s.mbxLock == Some(c))
  }

  /** A delivered message is its recipient's own, and its recipient is or will be awake; a returned message is
      its caller's own. */
  ghost predicate Addressed(s: State) {
    forall c | 0 <= c < |s.callers| ::
      var me := s.callers[c];
      && (me.msg.Some? ==> RecipientRole(me.pc) && me.msg.value.msgId == me.msgId && (me.pc.Waiting? ==> me.event > 0))
      && (me.pc.Returned? ==> me.pc.p.msgId == me.msgId)
  }

  ghost predicate DistinctIds(callers: seq<Caller>) {
    forall c, d | 0 <= c < |callers| && 0 <= d < |callers| && callers[c].msgId == callers[d].msgId :: c == d
  }

  /** Mail for a waiting caller or for the mailman is never left in newMail. */
  ghost predicate MailForAbsent(s: State) {
    forall p, c | p in s.newMail && 0 <= c < |s.callers| && s.callers[c].msgId == p.msgId ::
      !RecipientRole(s.callers[c].pc) && !MailmanRole(s.callers[c].pc)
  }

  ghost predicate Basic(s: State) {
    DistinctIds(s.callers) && Roles(s) && Addressed(s) && MailForAbsent(s)
  }

  lemma BasicListed(s: State)
    requires Roles(s)
    ensures Listed(s.callers, s.recipients)
  {
    forall i | 0 <= i < |s.recipients| ensures s.recipients[i] < |s.callers| {
      assert s.recipients[i] in s.recipients;
    }
  }

  lemma LookRoles(s: State, c: nat)
    requires Basic(s) && Is(s, c, Top) && s.mbxLock.None?
    ensures Roles(Look(s, c)) && DistinctIds(Look(s, c).callers)
  {
    var s' := Look(s, c);
    assert forall d | 0 <= d < |s.callers| && d != c :: s'.callers[d] == s.callers[d];
    assert s'.callers[c].msgId == s.callers[c].msgId && !RecipientRole(s.callers[c].pc);
    if s'.callers[c].pc.Waiting? {
      assert s'.recipients == s.recipients + [c] && s'.queueLock == s.queueLock && s'.mbxLock == s.mbxLock;
    } else {
      assert s'.recipients == s.recipients;
    }
  }

  lemma LookMail(s: State, c: nat)
    requires Basic(s) && Is(s, c, Top) && s.mbxLock.None?
    ensures Addressed(Look(s, c)) && MailForAbsent(Look(s, c))
  {
  }

  /** Sorting a packet moves the mailman only; other callers may gain a message or a signal. */
  lemma SortMoves(s: State, c: nat)
    requires Listed(s.callers, s.recipients) && c < |s.callers| && s.callers[c].pc.Holding?
    ensures var s', p := Sort(s, c), s.callers[c].pc.p;
            && |s'.callers| == |s.callers| && s'.recipients == s.recipients
            && s'.callers[c].pc == (if p.msgId == s.callers[c].msgId then Returned(p) else Delivering)
            && forall d | 0 <= d < |s.callers| ::
                 s'.callers[d].msgId == s.callers[d].msgId && (d != c ==> s'.callers[d].pc == s.callers[d].pc)
  {
  }

  lemma SortRoles(s: State, c: nat)
    requires Basic(s) && Listed(s.callers, s.recipients) && c < |s.callers| && s.callers[c].pc.Holding?
    ensures Roles(Sort(s, c)) && DistinctIds(Sort(s, c).callers)
  {
    SortMoves(s, c);
    var s' := Sort(s, c);
    assert s.mbxLock == s.queueLock == Some(c);
    assert if s'.callers[c].pc.Returned? then s'.mbxLock == s'.queueLock == None
           else s'.mbxLock == s'.queueLock == Some(c);
  }

  lemma SortAddressed(s: State, c: nat)
    requires Basic(s) && Listed(s.callers, s.recipients) && c < |s.callers| && s.callers[c].pc.Holding?
    ensures Addressed(Sort(s, c))
  {
  }

  lemma SortMail(s: State, c: nat)
    requires Basic(s) && Listed(s.callers, s.recipients) && c < |s.callers| && s.callers[c].pc.Holding?
    ensures MailForAbsent(Sort(s, c))
  {
  }

  lemma PickUpBasic(s: State, c: nat)
    requires Basic(s) && Is(s, c, Woken) && s.mbxLock.None?
    ensures Basic(PickUp(s, c))
  {
  }

  lemma GetBasic(s: State, s': State, c: nat)
    requires Basic(s) && Listed(s.callers, s.recipients) && StepOf(s, s', c)
    requires s.callers[c].pc.Delivering? || s.callers[c].pc.Blocked? || s.callers[c].pc.Relocking?
    ensures Basic(s')
  {
  }

  lemma CallBasic(s: State, s': State, c: nat)
    requires Basic(s) && Listed(s.callers, s.recipients) && StepOf(s, s', c)
    requires s.callers[c].pc.NotCalled? || s.callers[c].pc.Waiting?
    ensures Basic(s')
  {
  }

  lemma StepBasic(s: State, s': State, c: nat)
    requires Basic(s) && Listed(s.callers, s.recipients) && StepOf(s, s', c)
    ensures Basic(s')
  {
    match s.callers[c].pc {
      case Holding(_) =>
        SortRoles(s, c);
        SortAddressed(s, c);
        SortMail(s, c);
      case Top =>
        LookRoles(s, c);
        LookMail(s, c);
      case Woken => PickUpBasic(s, c);
      case NotCalled => CallBasic(s, s', c);
      case Waiting => CallBasic(s, s', c);
      case _ => GetBasic(s, s', c);
    }
  }

  /** The packets a caller has in its hand, in its record, or has returned with. */
  ghost function Held(c: Caller): multiset<Packet> {
    (if c.pc.Holding? || c.pc.Relocking? || c.pc.Returned? then multiset{c.pc.p} else multiset{})
    + if c.msg.Some? then multiset{c.msg.value} else multiset{}
  }

  ghost function HeldBy(callers: seq<Caller>): seq<multiset<Packet>> {
    seq(|callers|, c requires 0 <= c < |callers| => Held(callers[c]))
  }

  ghost function All(s: State): multiset<Packet> {
    multiset(s.queue) + multiset(s.newMail) + Union(HeldBy(s.callers))
  }

  /** At most one answer to each message. */
  ghost predicate OneReply(all: multiset<Packet>) {
    forall p, q | p in all && q in all && p.msgId == q.msgId :: p == q && all[p] == 1
  }

  ghost predicate Conserved(s: State) { All(s) == multiset(s.sent) && OneReply(multiset(s.sent)) }

  /** Caller c becomes x, which holds the packets a as well. */
  lemma HeldGains(callers: seq<Caller>, c: nat, x: Caller, a: multiset<Packet>)
    requires c < |callers| && Held(x) == Held(callers[c]) + a
    ensures Union(HeldBy(callers[c := x])) == Union(HeldBy(callers)) + a
  {
    UnionGains(HeldBy(callers), c, a);
    assert HeldBy(callers[c := x]) == HeldBy(callers)[c := Held(callers[c]) + a];
  }

  lemma HeldSame(callers: seq<Caller>, c: nat, x: Caller)
    requires c < |callers| && Held(x) == Held(callers[c])
    ensures Union(HeldBy(callers[c := x])) == Union(HeldBy(callers))
  {
    assert HeldBy(callers[c := x]) == HeldBy(callers);
  }

  lemma HeldLoses(callers: seq<Caller>, c: nat, x: Caller, a: multiset<Packet>)
    requires c < |callers| && Held(callers[c]) == Held(x) + a
    ensures Union(HeldBy(callers)) == Union(HeldBy(callers[c := x])) + a
  {
    HeldGains(callers[c := x], c, callers[c], a);
    assert callers[c := x][c := callers[c]] == callers;
  }

  /** A recipient the mailman finds for its packet has no message yet. */
  lemma OwnerUnserved(s: State, c: nat, r: nat)
    requires Basic(s) && Conserved(s) && c < |s.callers| && r < |s.callers| && s.callers[c].pc.Holding?
    requires RecipientRole(s.callers[r].pc) && s.callers[r].msgId == s.callers[c].pc.p.msgId
    ensures s.callers[r].msg == None
  {
    UnionHasTwo(HeldBy(s.callers), c, r);
  }

  lemma SortOwn(s: State, c: nat)
    requires Basic(s) && Listed(s.callers, s.recipients) && c < |s.callers| && s.callers[c].pc.Holding?
    requires s.callers[c].pc.p.msgId == s.callers[c].msgId
    ensures All(Sort(s, c)) == All(s)
  {
    var r, s1 := FindUnserved(s.callers, s.recipients), Goto(s, c, Returned(s.callers[c].pc.p));
    HeldSame(s.callers, c, s1.callers[c]);
    if r.Some? { HeldSame(s1.callers, r.value, Post(s1.callers, r.value)[r.value]); }
  }

  /** Caller c hands the packets x to caller r. */
  lemma HeldMoves(callers: seq<Caller>, c: nat, y: Caller, r: nat, z: Caller, x: multiset<Packet>)
    requires c < |callers| && r < |callers| && c != r
    requires Held(callers[c]) == Held(y) + x && Held(z) == Held(callers[r]) + x
    ensures Union(HeldBy(callers[c := y][r := z])) == Union(HeldBy(callers))
  {
    HeldLoses(callers, c, y, x);
    HeldGains(callers[c := y], r, z, x);
  }

  lemma SortToOwner(s: State, c: nat, r: nat)
    requires Basic(s) && Conserved(s) && Listed(s.callers, s.recipients) && c < |s.callers|
    requires s.callers[c].pc.Holding? && s.callers[c].pc.p.msgId != s.callers[c].msgId
    requires FindOwner(s.callers, s.recipients, s.callers[c].pc.p.msgId) == Some(r)
    ensures All(Sort(s, c)) == All(s)
  {
    var p, me, owner := s.callers[c].pc.p, s.callers[c], s.callers[r];
    OwnerUnserved(s, c, r);
    assert c != r;
    var y, z := me.(pc := Delivering), owner.(msg := Some(p), event := owner.event + 1);
    assert Sort(s, c).callers == s.callers[c := y][r := z];
    assert Held(me) == Held(y) + multiset{p} && Held(z) == Held(owner) + multiset{p};
    HeldMoves(s.callers, c, y, r, z, multiset{p});
  }

  lemma SortToMail(s: State, c: nat)
    requires Basic(s) && Listed(s.callers, s.recipients) && c < |s.callers|
    requires s.callers[c].pc.Holding? && s.callers[c].pc.p.msgId != s.callers[c].msgId
    requires FindOwner(s.callers, s.recipients, s.callers[c].pc.p.msgId) == None
    ensures All(Sort(s, c)) == All(s)
  {
    var x, s' := multiset{s.callers[c].pc.p}, Sort(s, c);
    HeldLoses(s.callers, c, s'.callers[c], x);
    assert multiset(s'.newMail) == multiset(s.newMail) + x;
    Regroup(multiset(s.queue), multiset(s.newMail), Union(HeldBy(s'.callers)), x);
  }

  lemma Regroup<T>(a: multiset<T>, b: multiset<T>, c: multiset<T>, x: multiset<T>)
    ensures a + b + (c + x) == a + (b + x) + c == (a + x) + b + c
  {
  }

  lemma TakeOut(mail: seq<Packet>, i: nat)
    requires i < |mail|
    ensures multiset(mail) == multiset(mail[..i] + mail[i + 1..]) + multiset{mail[i]}
  {
    assert mail == mail[..i] + [mail[i]] + mail[i + 1..];
  }

  /** Packets that leave newMail or the queue for a caller's hand are still there. */
  lemma Moved(s: State, s': State, c: nat, x: multiset<Packet>)
    requires c < |s.callers| == |s'.callers| && s'.callers == s.callers[c := s'.callers[c]]
    requires Held(s'.callers[c]) == Held(s.callers[c]) + x
    requires || (s'.queue == s.queue && multiset(s.newMail) == multiset(s'.newMail) + x)
             || (s'.newMail == s.newMail && multiset(s.queue) == multiset(s'.queue) + x)
    ensures All(s') == All(s)
  {
    HeldGains(s.callers, c, s'.callers[c], x);
    Regroup(multiset(s'.queue), multiset(s'.newMail), Union(HeldBy(s.callers)), x);
  }

  lemma LookTakes(s: State, c: nat, i: nat)
    requires Basic(s) && Is(s, c, Top) && s.mbxLock.None? && FindMail(s.newMail, s.callers[c].msgId) == Some(i)
    ensures i < |s.newMail| && Look(s, c).newMail == s.newMail[..i] + s.newMail[i + 1..]
    ensures Look(s, c).queue == s.queue && |Look(s, c).callers| == |s.callers|
    ensures Look(s, c).callers == s.callers[c := Look(s, c).callers[c]]
    ensures Held(Look(s, c).callers[c]) == Held(s.callers[c]) + multiset{s.newMail[i]}
  {
    hide FindMail;
  }

  lemma LookWaits(s: State, c: nat)
    requires Basic(s) && Is(s, c, Top) && s.mbxLock.None? && FindMail(s.newMail, s.callers[c].msgId) == None
    ensures Look(s, c).newMail == s.newMail && Look(s, c).queue == s.queue && |Look(s, c).callers| == |s.callers|
    ensures Look(s, c).callers == s.callers[c := Look(s, c).callers[c]]
    ensures Held(Look(s, c).callers[c]) == Held(s.callers[c])
  {
    hide FindMail;
  }

  lemma LookConserves(s: State, c: nat)
    requires Basic(s) && Is(s, c, Top) && s.mbxLock.None?
    ensures All(Look(s, c)) == All(s)
  {
    hide FindMail, Look, Held, Basic, All;
    match FindMail(s.newMail, s.callers[c].msgId)
    case Some(i) =>
      LookTakes(s, c, i);
      TakeOut(s.newMail, i);
      Moved(s, Look(s, c), c, multiset{s.newMail[i]});
    case None =>
      LookWaits(s, c);
      Unmoved(s, Look(s, c), c);
  }

  lemma Unmoved(s: State, s': State, c: nat)
    requires c < |s.callers| == |s'.callers| && s'.callers == s.callers[c := s'.callers[c]]
    requires Held(s'.callers[c]) == Held(s.callers[c]) && s'.queue == s.queue && s'.newMail == s.newMail
    ensures All(s') == All(s)
  {
    HeldSame(s.callers, c, s'.callers[c]);
  }

  lemma TakeConserves(s: State, s': State, c: nat)
    requires Basic(s) && Listed(s.callers, s.recipients) && StepOf(s, s', c)
    requires (s.callers[c].pc.Delivering? || s.callers[c].pc.Blocked?) && s.queue != []
    ensures All(s') == All(s)
  {
    hide All;
    assert s.queue == [s.queue[0]] + s.queue[1..];
    Moved(s, s', c, multiset{s.queue[0]});
  }

  lemma GetConserves(s: State, s': State, c: nat)
    requires Basic(s) && Listed(s.callers, s.recipients) && StepOf(s, s', c)
    requires !s.callers[c].pc.Holding? && !s.callers[c].pc.Top?
    ensures All(s') == All(s)
  {
    if (s.callers[c].pc.Delivering? || s.callers[c].pc.Blocked?) && s.queue != [] {
      TakeConserves(s, s', c);
    } else {
      assert s'.callers == s.callers[c := s'.callers[c]];
      HeldSame(s.callers, c, s'.callers[c]);
    }
  }

  lemma StepConserves(s: State, s': State, c: nat)
    requires Basic(s) && Conserved(s) && Listed(s.callers, s.recipients) && StepOf(s, s', c)
    ensures Conserved(s')
  {
    if s.callers[c].pc.Top? {
      LookConserves(s, c);
    } else if !s.callers[c].pc.Holding? {
      GetConserves(s, s', c);
    } else if s.callers[c].pc.p.msgId == s.callers[c].msgId {
      SortOwn(s, c);
    } else {
      var r := FindOwner(s.callers, s.recipients, s.callers[c].pc.p.msgId);
      if r.Some? { SortToOwner(s, c, r.value); } else { SortToMail(s, c); }
    }
  }

  lemma ReplyConserves(s: State, s': State, p: Packet)
    requires Basic(s) && Conserved(s) && Reply(s, s', p)
    ensures Basic(s') && Conserved(s')
  {
    assert forall q | q in multiset(s.sent) :: q in s.sent && q.msgId != p.msgId;
  }

  /** A recipient nobody has served or signalled. */
  ghost predicate Unserved(s: State, r: nat) {
    r < |s.callers| && s.callers[r].pc.Waiting? && s.callers[r].msg == None && s.callers[r].event == 0
  }

  /** A caller about to try for the mailman role: signalled or woken without mail, or back at the top of the
      loop with no mail waiting for it. */
  ghost predicate Successor(s: State, x: nat) {
    && x < |s.callers|
    && var me := s.callers[x];
       || (RecipientRole(me.pc) && me.msg == None && (me.event > 0 || me.pc.Woken?))
       || (me.pc.Top? && forall p | p in s.newMail :: p.msgId != me.msgId)
  }

  /** If a recipient is left unserved, somebody is the mailman or about to become it. */
  ghost predicate NoOrphan(s: State) {
    s.queueLock.None? && (exists r: nat :: Unserved(s, r)) ==> exists x: nat :: Successor(s, x)
  }

  lemma HandsOver(s: State, c: nat)
    requires Basic(s) && Listed(s.callers, s.recipients) && c < |s.callers| && s.callers[c].pc.Holding?
    ensures NoOrphan(Sort(s, c))
  {
    var s' := Sort(s, c);
    SortMoves(s, c);
    if s'.queueLock.None? && exists r: nat :: Unserved(s', r) {
      var r: nat :| Unserved(s', r);
      assert r in s.recipients && s.callers[r].msg == None;
      var x := FindUnserved(s.callers, s.recipients).value;
      assert Successor(s', x);
    }
  }

  lemma StepNoOrphan(s: State, s': State, c: nat)
    requires Basic(s) && NoOrphan(s) && Listed(s.callers, s.recipients) && StepOf(s, s', c)
    ensures NoOrphan(s')
  {
    if s.callers[c].pc.Holding? {
      HandsOver(s, c);
    } else if s'.queueLock.None? && exists r: nat :: Unserved(s', r) {
      var r: nat :| Unserved(s', r);
      assert s.queueLock.None? && Unserved(s, r);
      var x: nat :| Successor(s, x);
      assert Successor(s', x);
    }
  }
}
